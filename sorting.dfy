/**
 * `slice::sort_by`, which both listings use: a stable sort under a
 * comparator, here given as the "not greater" relation `le` it induces.
 * The sort is defined as insertion sort; what is proved about it (ordered,
 * a permutation, stable) is what Rust promises of `sort_by`.
 */
module Sorting {

  /** `le` orders every pair and is transitive, as a comparator's "not greater" must be. */
  ghost predicate TotalPreorder<T(!new)>(le: (T, T) -> bool) {
    (forall a, b :: le(a, b) || le(b, a))
    && (forall a, b, c :: le(a, b) && le(b, c) ==> le(a, c))
  }

  /** Every element is "not greater" than every later one. */
  ghost predicate Sorted<T>(xs: seq<T>, le: (T, T) -> bool) {
    forall i, j :: 0 <= i < j < |xs| ==> le(xs[i], xs[j])
  }

  /** The comparator calls the two elements equal. */
  predicate Equiv<T>(le: (T, T) -> bool, a: T, b: T) {
    le(a, b) && le(b, a)
  }

  /** `x` placed before the first element it is not greater than. */
  function Insert<T>(x: T, xs: seq<T>, le: (T, T) -> bool): (r: seq<T>)
    ensures multiset(r) == multiset(xs) + multiset{x}
    ensures |r| == |xs| + 1
  {
    if xs == [] then [x]
    else if le(x, xs[0]) then [x] + xs
    else
      assert xs == [xs[0]] + xs[1..];
      [xs[0]] + Insert(x, xs[1..], le)
  }

  /** The elements of `xs` in the order `le` gives, equal ones in their original order. */
  function SortBy<T>(xs: seq<T>, le: (T, T) -> bool): (r: seq<T>)
    ensures multiset(r) == multiset(xs)
    ensures |r| == |xs|
  {
    if xs == [] then []
    else
      assert xs == [xs[0]] + xs[1..];
      Insert(xs[0], SortBy(xs[1..], le), le)
  }

  /** The elements of `xs` the comparator calls equal to `x`, in order. */
  function EquivTo<T>(xs: seq<T>, x: T, le: (T, T) -> bool): (r: seq<T>)
    ensures |r| <= |xs|
  {
    if xs == [] then []
    else (if Equiv(le, xs[0], x) then [xs[0]] else []) + EquivTo(xs[1..], x, le)
  }

  // ---------------------------------------------------------------------------

  /** The tail of an ordered sequence is ordered. */
  lemma SortedTail<T>(xs: seq<T>, le: (T, T) -> bool)
    requires xs != [] && Sorted(xs, le)
    ensures Sorted(xs[1..], le)
  {
    var tail := xs[1..];
    forall i, j | 0 <= i < j < |tail| ensures le(tail[i], tail[j]) {
      assert tail[i] == xs[i + 1] && tail[j] == xs[j + 1];
    }
  }

  /** An element below `x` and below every element of `xs` is below every element of the insertion. */
  lemma InsertBelow<T>(h: T, x: T, xs: seq<T>, le: (T, T) -> bool)
    requires le(h, x) && forall m :: 0 <= m < |xs| ==> le(h, xs[m])
    ensures forall k :: 0 <= k < |Insert(x, xs, le)| ==> le(h, Insert(x, xs, le)[k])
  {
    var r := Insert(x, xs, le);
    forall k | 0 <= k < |r| ensures le(h, r[k]) {
      assert r[k] in multiset(r);
      assert r[k] == x || r[k] in multiset(xs);
      if r[k] != x {
        var m :| 0 <= m < |xs| && xs[m] == r[k];
      }
    }
  }

  /** An element below every element of an ordered sequence can lead it. */
  lemma ConsSorted<T>(h: T, rest: seq<T>, le: (T, T) -> bool)
    requires Sorted(rest, le) && forall k :: 0 <= k < |rest| ==> le(h, rest[k])
    ensures Sorted([h] + rest, le)
  {
    var r := [h] + rest;
    forall i, j | 0 <= i < j < |r| ensures le(r[i], r[j]) {
      if i == 0 {
        assert r[j] == rest[j - 1];
      } else {
        assert r[i] == rest[i - 1] && r[j] == rest[j - 1];
      }
    }
  }

  /** Inserting into an ordered sequence keeps it ordered. */
  lemma {:induction false} InsertSorted<T(!new)>(x: T, xs: seq<T>, le: (T, T) -> bool)
    requires TotalPreorder(le) && Sorted(xs, le)
    ensures Sorted(Insert(x, xs, le), le)
    decreases |xs|
  {
    if xs == [] {
    } else if le(x, xs[0]) {
      forall k | 0 <= k < |xs| ensures le(x, xs[k]) {
        if k > 0 {
          assert le(xs[0], xs[k]);
        }
      }
      ConsSorted(x, xs, le);
    } else {
      var tail := xs[1..];
      SortedTail(xs, le);
      InsertSorted(x, tail, le);
      forall m | 0 <= m < |tail| ensures le(xs[0], tail[m]) {
        assert tail[m] == xs[m + 1];
      }
      assert le(xs[0], x);
      InsertBelow(xs[0], x, tail, le);
      var rest := Insert(x, tail, le);
      assert forall k :: 0 <= k < |rest| ==> le(xs[0], rest[k]);
      ConsSorted(xs[0], rest, le);
    }
  }

  /** `SortBy` orders its input. */
  lemma {:induction false} SortBySorted<T(!new)>(xs: seq<T>, le: (T, T) -> bool)
    requires TotalPreorder(le)
    ensures Sorted(SortBy(xs, le), le)
    decreases |xs|
  {
    if xs != [] {
      SortBySorted(xs[1..], le);
      InsertSorted(xs[0], SortBy(xs[1..], le), le);
    }
  }

  /** `SortBy` rearranges its input and nothing more. */
  lemma SortByPermutes<T>(xs: seq<T>, le: (T, T) -> bool)
    ensures multiset(SortBy(xs, le)) == multiset(xs)
  {
  }

  /** `EquivTo` distributes over concatenation. */
  lemma {:induction false} EquivToAppend<T>(a: seq<T>, b: seq<T>, x: T, le: (T, T) -> bool)
    ensures EquivTo(a + b, x, le) == EquivTo(a, x, le) + EquivTo(b, x, le)
    decreases |a|
  {
    if a != [] {
      assert (a + b)[1..] == a[1..] + b;
      assert (a + b)[0] == a[0];
      EquivToAppend(a[1..], b, x, le);
      var h := if Equiv(le, a[0], x) then [a[0]] else [];
      assert EquivTo(a + b, x, le) == h + (EquivTo(a[1..], x, le) + EquivTo(b, x, le));
      assert EquivTo(a, x, le) == h + EquivTo(a[1..], x, le);
    } else {
      assert a + b == b;
    }
  }

  /**
   * Inserting `y` into an ordered sequence puts it after exactly the elements
   * strictly less than it, so among the elements equal to any `x` it comes first.
   */
  lemma {:induction false} InsertEquivTo<T(!new)>(y: T, xs: seq<T>, x: T, le: (T, T) -> bool)
    requires TotalPreorder(le) && Sorted(xs, le)
    ensures EquivTo(Insert(y, xs, le), x, le) == EquivTo([y], x, le) + EquivTo(xs, x, le)
    decreases |xs|
  {
    if xs == [] {
      assert [y] + xs == [y];
    } else if le(y, xs[0]) {
      EquivToAppend([y], xs, x, le);
    } else {
      var tail := xs[1..];
      assert Sorted(tail, le) by {
        forall i, j | 0 <= i < j < |tail| ensures le(tail[i], tail[j]) {
          assert tail[i] == xs[i + 1] && tail[j] == xs[j + 1];
        }
      }
      InsertEquivTo(y, tail, x, le);
      // xs[0] is strictly below y, so it is not equal to anything y equals
      assert Equiv(le, y, x) ==> !Equiv(le, xs[0], x);
      assert Insert(y, xs, le) == [xs[0]] + Insert(y, tail, le);
      InsertEquivToPastHead(y, xs, x, le, Insert(y, tail, le));
    }
  }

  /**
   * The step of `InsertEquivTo` where `y` goes past the head, which is not
   * equal to `x` when `y` is: `rest` is the tail with `y` inserted.
   */
  lemma InsertEquivToPastHead<T>(y: T, xs: seq<T>, x: T, le: (T, T) -> bool, rest: seq<T>)
    requires xs != []
    requires Equiv(le, y, x) ==> !Equiv(le, xs[0], x)
    requires EquivTo(rest, x, le) == EquivTo([y], x, le) + EquivTo(xs[1..], x, le)
    ensures EquivTo([xs[0]] + rest, x, le) == EquivTo([y], x, le) + EquivTo(xs, x, le)
  {
    var tail := xs[1..];
    var head, ys, others := EquivTo([xs[0]], x, le), EquivTo([y], x, le), EquivTo(tail, x, le);
    EquivToAppend([xs[0]], rest, x, le);
    assert EquivTo(xs, x, le) == head + others by {
      assert xs == [xs[0]] + tail;
      EquivToAppend([xs[0]], tail, x, le);
    }
    assert head == [] || ys == [] by {
      EquivToSingle(xs[0], x, le);
      EquivToSingle(y, x, le);
    }
    SwapAroundEmpty(head, ys, others);
  }

  /** A one-element sequence keeps its element exactly when it is equal to `x`. */
  lemma EquivToSingle<T>(z: T, x: T, le: (T, T) -> bool)
    ensures EquivTo([z], x, le) == if Equiv(le, z, x) then [z] else []
  {
    assert [z][1..] == [];
  }

  /** Two pieces one of which is empty can be swapped. */
  lemma SwapAroundEmpty<T>(a: seq<T>, b: seq<T>, c: seq<T>)
    requires a == [] || b == []
    ensures a + (b + c) == b + (a + c)
  {
    if a == [] {
      assert a + (b + c) == b + c == b + (a + c);
    } else {
      assert a + (b + c) == a + c == b + (a + c);
    }
  }

  /** `sort_by` is stable: elements the comparator calls equal keep their relative order. */
  lemma {:induction false} SortByStable<T(!new)>(xs: seq<T>, x: T, le: (T, T) -> bool)
    requires TotalPreorder(le)
    ensures EquivTo(SortBy(xs, le), x, le) == EquivTo(xs, x, le)
    decreases |xs|
  {
    if xs != [] {
      SortByStable(xs[1..], x, le);
      SortBySorted(xs[1..], le);
      InsertEquivTo(xs[0], SortBy(xs[1..], le), x, le);
      EquivToAppend([xs[0]], xs[1..], x, le);
      assert xs == [xs[0]] + xs[1..];
    }
  }
}
