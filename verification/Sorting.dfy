/**
 sort.SliceStable and sort.Slice by what they promise.  The promise fixes the result: any sorted
 sequence that keeps equal elements in order is the one computed here, so the library's own algorithm
 does not matter.

 `Sort` is the specification; `InsertionSort` sorts an array by exchanges and is shown to meet it through
 `StableSortUnique`.
 */
module Sorting {
  import opened Strings

  /** What the sort package asks of a `less` function. */
  ghost predicate StrictWeakOrder<T(!new)>(less: (T, T) -> bool) {
    && (forall x, y :: less(x, y) ==> !less(y, x))
    && (forall x, y, z :: less(x, y) && less(y, z) ==> less(x, z))
    && (forall x, y, z :: !less(x, y) && !less(y, z) ==> !less(x, z))
  }

  ghost predicate Sorted<T>(xs: seq<T>, less: (T, T) -> bool) {
    forall i, j :: 0 <= i < j < |xs| ==> !less(xs[j], xs[i])
  }

  predicate Tied<T>(x: T, y: T, less: (T, T) -> bool) {
    !less(x, y) && !less(y, x)
  }

  /** The elements tied with `t`, in order. */
  function Ties<T>(xs: seq<T>, less: (T, T) -> bool, t: T): seq<T> {
    if xs == [] then []
    else (if Tied(xs[0], t, less) then [xs[0]] else []) + Ties(xs[1..], less, t)
  }

  function Insert<T>(x: T, xs: seq<T>, less: (T, T) -> bool): seq<T> {
    if xs == [] then [x]
    else if less(xs[0], x) then [xs[0]] + Insert(x, xs[1..], less)
    else [x] + xs
  }

  function Sort<T>(xs: seq<T>, less: (T, T) -> bool): seq<T> {
    if xs == [] then [] else Insert(xs[0], Sort(xs[1..], less), less)
  }

  lemma {:induction false} InsertElements<T>(x: T, xs: seq<T>, less: (T, T) -> bool)
    ensures multiset(Insert(x, xs, less)) == multiset{x} + multiset(xs)
  {
    if xs != [] && less(xs[0], x) {
      InsertElements(x, xs[1..], less);
      assert xs == [xs[0]] + xs[1..];
    }
  }

  lemma {:induction false} InsertSorts<T(!new)>(x: T, xs: seq<T>, less: (T, T) -> bool)
    requires StrictWeakOrder(less) && Sorted(xs, less)
    ensures Sorted(Insert(x, xs, less), less)
  {
    if xs != [] {
      if less(xs[0], x) {
        var rest := Insert(x, xs[1..], less);
        InsertSorts(x, xs[1..], less);
        InsertElements(x, xs[1..], less);
        forall j | 0 <= j < |rest| ensures !less(rest[j], xs[0]) {
          assert rest[j] in multiset(rest);
          assert rest[j] == x || rest[j] in xs[1..];
        }
      } else {
        forall j | 0 <= j < |xs| ensures !less(xs[j], x) {
          assert j == 0 || !less(xs[j], xs[0]);
        }
      }
    }
  }

  lemma {:induction false} TiesCons<T>(x: T, xs: seq<T>, less: (T, T) -> bool, t: T)
    ensures Ties([x] + xs, less, t) == (if Tied(x, t, less) then [x] else []) + Ties(xs, less, t)
  {
    assert ([x] + xs)[1..] == xs;
  }

  /** What the order means here: an element below `x` is not tied to what `x` is tied to. */
  ghost predicate Apart<T>(x: T, xs: seq<T>, less: (T, T) -> bool, t: T) {
    Tied(x, t, less) ==> forall k :: 0 <= k < |xs| && less(xs[k], x) ==> !Tied(xs[k], t, less)
  }

  lemma {:induction false} InsertTies<T>(x: T, xs: seq<T>, less: (T, T) -> bool, t: T)
    requires Apart(x, xs, less, t)
    ensures Ties(Insert(x, xs, less), less, t) == (if Tied(x, t, less) then [x] else []) + Ties(xs, less, t)
  {
    if xs != [] && less(xs[0], x) {
      var y, rest := xs[0], xs[1..];
      var xt := if Tied(x, t, less) then [x] else [];
      var yt := if Tied(y, t, less) then [y] else [];
      assert [y] + rest == xs && (xt == [] || yt == []);
      calc {
        Ties(Insert(x, xs, less), less, t);
        Ties([y] + Insert(x, rest, less), less, t);
        { TiesCons(y, Insert(x, rest, less), less, t); }
        yt + Ties(Insert(x, rest, less), less, t);
        { InsertTies(x, rest, less, t); }
        yt + (xt + Ties(rest, less, t));
        xt + (yt + Ties(rest, less, t));
        { TiesCons(y, rest, less, t); }
        xt + Ties(xs, less, t);
      }
    } else {
      TiesCons(x, xs, less, t);
      assert xs == [] ==> [x] + xs == [x];
    }
  }

  /** Sort is a stable sort. */
  lemma {:induction false} SortIsStable<T(!new)>(xs: seq<T>, less: (T, T) -> bool)
    requires StrictWeakOrder(less)
    ensures Sorted(Sort(xs, less), less)
    ensures multiset(Sort(xs, less)) == multiset(xs)
    ensures forall t :: Ties(Sort(xs, less), less, t) == Ties(xs, less, t)
  {
    if xs != [] {
      SortIsStable(xs[1..], less);
      var rest := Sort(xs[1..], less);
      InsertSorts(xs[0], rest, less);
      InsertElements(xs[0], rest, less);
      forall t ensures Ties(Sort(xs, less), less, t) == Ties(xs, less, t) {
        InsertTies(xs[0], rest, less, t);
        assert Ties(rest, less, t) == Ties(xs[1..], less, t);
      }
      assert xs == [xs[0]] + xs[1..];
    }
  }

  lemma {:induction false} TiesMember<T(!new)>(xs: seq<T>, less: (T, T) -> bool, t: T)
    ensures forall x :: x in Ties(xs, less, t) <==> x in xs && Tied(x, t, less)
  {
    if xs != [] {
      TiesMember(xs[1..], less, t);
      assert forall x :: x in xs <==> x == xs[0] || x in xs[1..];
    }
  }

  /** The contract of sort.SliceStable has one solution. */
  lemma {:induction false} StableSortUnique<T(!new)>(a: seq<T>, b: seq<T>, less: (T, T) -> bool)
    requires StrictWeakOrder(less) && Sorted(a, less) && Sorted(b, less)
    requires forall t :: Ties(a, less, t) == Ties(b, less, t)
    ensures a == b
    decreases |a|
  {
    if a == [] {
      assert b == [] || Ties(b, less, b[0]) != [];
    } else {
      assert b != [] by {
        TiesMember(a, less, a[0]);
        assert a[0] in Ties(a, less, a[0]);
        assert Ties(b, less, a[0]) != [];
      }
      HeadInOther(a, b, less);
      HeadInOther(b, a, less);
      assert Tied(a[0], b[0], less);
      assert Ties(a, less, a[0])[0] == a[0] && Ties(b, less, a[0])[0] == b[0];
      forall t ensures Ties(a[1..], less, t) == Ties(b[1..], less, t) {
        assert Ties(a, less, t) == Ties(b, less, t);
        var head := if Tied(a[0], t, less) then [a[0]] else [];
        assert Ties(a[1..], less, t) == Ties(a, less, t)[|head|..];
        assert Ties(b[1..], less, t) == Ties(b, less, t)[|head|..];
      }
      StableSortUnique(a[1..], b[1..], less);
      assert a == [a[0]] + a[1..] && b == [b[0]] + b[1..];
    }
  }

  lemma HeadInOther<T(!new)>(a: seq<T>, b: seq<T>, less: (T, T) -> bool)
    requires StrictWeakOrder(less) && Sorted(a, less) && a != [] && b != []
    requires forall t :: Ties(a, less, t) == Ties(b, less, t)
    ensures !less(b[0], a[0])
  {
    TiesMember(b, less, b[0]);
    TiesMember(a, less, b[0]);
    assert b[0] in Ties(b, less, b[0]);
    assert Ties(a, less, b[0]) == Ties(b, less, b[0]);
    var j :| 0 <= j < |a| && a[j] == b[0];
  }

  /** No two different elements are tied. */
  ghost predicate Separates<T>(xs: seq<T>, less: (T, T) -> bool) {
    forall x, y :: x in xs && y in xs && Tied(x, y, less) ==> x == y
  }

  lemma {:induction false} SameHead<T>(a: seq<T>, b: seq<T>, less: (T, T) -> bool)
    requires Sorted(a, less) && Sorted(b, less) && multiset(a) == multiset(b) && Separates(a, less)
    requires (forall x :: x in a ==> !less(x, x)) && a != [] && b != []
    ensures a[0] == b[0]
  {
    assert a[0] in multiset(b) && b[0] in multiset(a);
    var j :| 0 <= j < |a| && a[j] == b[0];
    var k :| 0 <= k < |b| && b[k] == a[0];
    assert Tied(a[0], b[0], less) && a[0] in a && b[0] in a;
  }

  lemma {:induction false} TailElements<T>(a: seq<T>)
    requires a != []
    ensures multiset(a[1..]) == multiset(a) - multiset{a[0]}
  {
    assert a == [a[0]] + a[1..];
  }

  /** With separated elements any sorted rearrangement is the same, so even sort.Slice has one result. */
  lemma {:induction false} SortedUnique<T>(a: seq<T>, b: seq<T>, less: (T, T) -> bool)
    requires Sorted(a, less) && Sorted(b, less) && multiset(a) == multiset(b) && Separates(a, less)
    requires forall x :: x in a ==> !less(x, x)
    ensures a == b
    decreases |a|
  {
    assert |a| == |multiset(a)| == |multiset(b)| == |b|;
    if a != [] {
      SameHead(a, b, less);
      TailElements(a);
      TailElements(b);
      SortedUnique(a[1..], b[1..], less);
      assert a == [a[0]] + a[1..] && b == [b[0]] + b[1..];
    }
  }

  /** Sorting forgets the order it started from. */
  lemma SortForgetsOrder<T(!new)>(xs: seq<T>, ys: seq<T>, less: (T, T) -> bool)
    requires StrictWeakOrder(less) && multiset(xs) == multiset(ys) && Separates(xs, less)
    ensures Sort(xs, less) == Sort(ys, less)
  {
    SortIsStable(xs, less);
    SortIsStable(ys, less);
    assert forall x :: x in Sort(xs, less) ==> x in multiset(xs) && x in xs;
    SortedUnique(Sort(xs, less), Sort(ys, less), less);
  }

  // ------------------------------------------------------------------ sorting in place

  ghost predicate SameTies<T(!new)>(xs: seq<T>, ys: seq<T>, less: (T, T) -> bool) {
    forall t :: Ties(xs, less, t) == Ties(ys, less, t)
  }

  lemma {:induction false} TiesConcat<T>(xs: seq<T>, ys: seq<T>, less: (T, T) -> bool, t: T)
    ensures Ties(xs + ys, less, t) == Ties(xs, less, t) + Ties(ys, less, t)
    decreases |xs|
  {
    if xs == [] {
      assert xs + ys == ys;
    } else {
      var head := if Tied(xs[0], t, less) then [xs[0]] else [];
      calc {
        Ties(xs + ys, less, t);
        { assert (xs + ys)[1..] == xs[1..] + ys && (xs + ys)[0] == xs[0]; }
        head + Ties(xs[1..] + ys, less, t);
        { TiesConcat(xs[1..], ys, less, t); }
        head + (Ties(xs[1..], less, t) + Ties(ys, less, t));
        (head + Ties(xs[1..], less, t)) + Ties(ys, less, t);
        Ties(xs, less, t) + Ties(ys, less, t);
      }
    }
  }

  lemma {:induction false} TiesPair<T(!new)>(x: T, y: T, less: (T, T) -> bool, t: T)
    requires StrictWeakOrder(less) && less(y, x)
    ensures Ties([x, y], less, t) == Ties([y, x], less, t)
  {
    assert [x, y][1..] == [y] && [y, x][1..] == [x] && [x][1..] == [] && [y][1..] == [];
    assert !Tied(x, t, less) || !Tied(y, t, less);
  }

  /** Exchanging neighbours that are out of order moves nothing past an element it is tied with. */
  lemma TiesSwap<T(!new)>(xs: seq<T>, k: nat, less: (T, T) -> bool)
    requires StrictWeakOrder(less) && k + 1 < |xs| && less(xs[k + 1], xs[k])
    ensures SameTies(xs[k := xs[k + 1]][k + 1 := xs[k]], xs, less)
  {
    var x, y, head, tail := xs[k], xs[k + 1], xs[..k], xs[k + 2..];
    var swapped := xs[k := y][k + 1 := x];
    assert xs == head + ([x, y] + tail) && swapped == head + ([y, x] + tail);
    forall t ensures Ties(swapped, less, t) == Ties(xs, less, t) {
      TiesPair(x, y, less, t);
      TiesConcat([x, y], tail, less, t);
      TiesConcat([y, x], tail, less, t);
      TiesConcat(head, [x, y] + tail, less, t);
      TiesConcat(head, [y, x] + tail, less, t);
    }
  }

  /** Carry `a[i]` down to its place among the elements before it. */
  method InsertLast<T(!new)>(a: array<T>, i: nat, less: (T, T) -> bool)
    requires StrictWeakOrder(less) && i < a.Length && Sorted(a[..i], less)
    modifies a
    ensures Sorted(a[..i + 1], less) && SameTies(a[..], old(a[..]), less)
  {
    var j := i;
    while j > 0 && less(a[j], a[j - 1])
      invariant 0 <= j <= i && SameTies(a[..], old(a[..]), less)
      invariant forall p, q :: 0 <= p < q <= i && q != j ==> !less(a[q], a[p])
    {
      TiesSwap(a[..], j - 1, less);
      ghost var before := a[..];
      a[j], a[j - 1] := a[j - 1], a[j];
      assert a[..] == before[j - 1 := before[j]][j := before[j - 1]];
      j := j - 1;
    }
    forall p | 0 <= p < j ensures !less(a[j], a[p]) {
      assert p == j - 1 || !less(a[j - 1], a[p]);
    }
  }

  /** The exchanges of an insertion sort; by StableSortUnique no other stable sort ends differently. */
  method InsertionSort<T(!new)>(a: array<T>, less: (T, T) -> bool)
    requires StrictWeakOrder(less)
    modifies a
    ensures a[..] == Sort(old(a[..]), less)
  {
    for i := 0 to a.Length
      invariant Sorted(a[..i], less) && SameTies(a[..], old(a[..]), less)
    {
      InsertLast(a, i, less);
    }
    assert a[..a.Length] == a[..];
    SortIsStable(old(a[..]), less);
    StableSortUnique(a[..], Sort(old(a[..]), less), less);
  }

  /** sort.SliceStable on the elements of a slice. */
  method SliceStable<T(!new)>(xs: seq<T>, less: (T, T) -> bool) returns (sorted: seq<T>)
    requires StrictWeakOrder(less)
    ensures sorted == Sort(xs, less)
    ensures Sorted(sorted, less) && multiset(sorted) == multiset(xs) && SameTies(sorted, xs, less)
  {
    var a := new T[|xs|](k requires 0 <= k < |xs| => xs[k]);
    assert a[..] == xs;
    InsertionSort(a, less);
    sorted := a[..];
    SortIsStable(xs, less);
  }

  // ------------------------------------------------------------------ sorting by a string field

  function ByKey<T>(key: T -> string): (T, T) -> bool {
    (x: T, y: T) => Less(key(x), key(y))
  }

  lemma ByKeyIs<T>(key: T -> string, x: T, y: T)
    ensures ByKey(key)(x, y) <==> Less(key(x), key(y))
  {
  }

  lemma ByKeyOrders<T(!new)>(key: T -> string)
    ensures StrictWeakOrder(ByKey(key))
    ensures forall x, y :: Tied(x, y, ByKey(key)) <==> key(x) == key(y)
  {
    var less := ByKey(key);
    forall x, y ensures !(less(x, y) && less(y, x)) { LessAsymmetric(key(x), key(y)); }
    forall x, y ensures Tied(x, y, less) <==> key(x) == key(y) {
      LessTotal(key(x), key(y));
      LessAsymmetric(key(x), key(y));
    }
    forall x, y, z | less(x, y) && less(y, z) ensures less(x, z) { LessTransitive(key(x), key(y), key(z)); }
    forall x, y, z | !less(x, y) && !less(y, z) ensures !less(x, z) {
      LessTotal(key(x), key(y));
      LessTotal(key(y), key(z));
      if less(x, z) {
        if key(x) != key(y) {
          LessTransitive(key(y), key(x), key(z));
        }
        assert false;
      }
    }
  }

  ghost predicate DistinctKeys<T>(xs: seq<T>, key: T -> string) {
    forall i, j :: 0 <= i < j < |xs| ==> key(xs[i]) != key(xs[j])
  }

  /** On lists with distinct keys, sorting by key gives one canonical list per set of elements. */
  lemma CanonicalByKey<T(!new)>(xs: seq<T>, ys: seq<T>, key: T -> string)
    requires DistinctKeys(xs, key) && multiset(xs) == multiset(ys)
    ensures Sort(xs, ByKey(key)) == Sort(ys, ByKey(key))
  {
    ByKeyOrders(key);
    SortForgetsOrder(xs, ys, ByKey(key));
  }
}
