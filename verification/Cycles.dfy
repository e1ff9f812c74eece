/** Closed walks of a relation, and when one relation has them because another has. */
module Cycles {
  predicate Walk<T>(path: seq<T>, rel: (T, T) -> bool) {
    forall k :: 0 <= k < |path| - 1 ==> rel(path[k], path[k + 1])
  }

  ghost predicate Cyclic<T(!new)>(rel: (T, T) -> bool) {
    exists path: seq<T> :: |path| >= 2 && path[0] == path[|path| - 1] && Walk(path, rel)
  }

  ghost predicate Leads<T(!new)>(rel: (T, T) -> bool, x: T, y: T) {
    exists path: seq<T> :: |path| >= 2 && path[0] == x && path[|path| - 1] == y && Walk(path, rel)
  }

  lemma WalkConcat<T>(a: seq<T>, b: seq<T>, rel: (T, T) -> bool)
    requires a != [] && b != [] && a[|a| - 1] == b[0] && Walk(a, rel) && Walk(b, rel)
    ensures Walk(a + b[1..], rel)
  {
    var c, n := a + b[1..], |a| - 1;
    forall k | 0 <= k < |c| - 1 ensures rel(c[k], c[k + 1]) {
      if k < n {
        assert c[k] == a[k] && c[k + 1] == a[k + 1];
      } else {
        assert c[k] == b[k - n] && c[k + 1] == b[k - n + 1];
      }
    }
  }

  lemma LeadsOn<T(!new)>(rel: (T, T) -> bool, x: T, y: T, z: T)
    requires Leads(rel, x, y) && Leads(rel, y, z)
    ensures Leads(rel, x, z)
  {
    var a: seq<T> :| |a| >= 2 && a[0] == x && a[|a| - 1] == y && Walk(a, rel);
    var b: seq<T> :| |b| >= 2 && b[0] == y && b[|b| - 1] == z && Walk(b, rel);
    WalkConcat(a, b, rel);
    var c := a + b[1..];
    assert c[0] == x && c[|c| - 1] == z;
  }

  lemma BackAndForth<T(!new)>(rel: (T, T) -> bool, x: T, y: T)
    requires rel(x, y) && rel(y, x)
    ensures Cyclic(rel)
  {
    assert Walk([x, y, x], rel);
  }

  // ------------------------------------------------------------------ leaving steps out

  /** Steps of `rel` are steps of `big` between the indices, except those inside one; never two of these in turn. */
  ghost predicate Contracts<T(!new), U>(
      rel: (T, T) -> bool, index: T -> U, inside: (T, T) -> bool, big: (U, U) -> bool) {
    && (forall x, y :: rel(x, y) ==> if inside(x, y) then index(x) == index(y) else big(index(x), index(y)))
    && (forall x, y, z :: inside(x, y) ==> !inside(y, z))
  }

  lemma {:induction false} Contract<T(!new), U>(
      path: seq<T>, rel: (T, T) -> bool, index: T -> U, inside: (T, T) -> bool, big: (U, U) -> bool)
    returns (ids: seq<U>)
    requires path != [] && Walk(path, rel) && Contracts(rel, index, inside, big)
    ensures ids != [] && Walk(ids, big) && ids[0] == index(path[0]) && ids[|ids| - 1] == index(path[|path| - 1])
    ensures |ids| == 1 ==> |path| == 1 || (|path| == 2 && inside(path[0], path[1]))
  {
    if |path| == 1 {
      ids := [index(path[0])];
    } else {
      var rest := path[1..];
      forall k | 0 <= k < |rest| - 1 ensures rel(rest[k], rest[k + 1]) {
        assert rest[k] == path[k + 1] && rest[k + 1] == path[k + 1 + 1];
      }
      var tail := Contract(rest, rel, index, inside, big);
      assert rel(path[0], path[0 + 1]);
      ids := tail;
      if !inside(path[0], path[1]) {
        ids := [index(path[0])] + tail;
        WalkConcat([index(path[0]), tail[0]], tail, big);
        assert [index(path[0]), tail[0]] + tail[1..] == ids;
      }
    }
  }

  lemma ContractCycle<T(!new), U(!new)>(
      rel: (T, T) -> bool, index: T -> U, inside: (T, T) -> bool, big: (U, U) -> bool)
    requires Contracts(rel, index, inside, big) && Cyclic(rel)
    ensures Cyclic(big)
  {
    var path: seq<T> :| |path| >= 2 && path[0] == path[|path| - 1] && Walk(path, rel);
    var ids := Contract(path, rel, index, inside, big);
    assert inside(path[0], path[1]) ==> path[0] != path[1];
  }

  // ------------------------------------------------------------------ filling steps in

  /**
   Whatever stands for `i` leads, along `rel`, to where the step of `big` from `i` to `j` arrives, and that
   stands for `j`.
   */
  ghost predicate Lifts<T(!new), U(!new)>(
      rel: (T, T) -> bool, stands: (T, U) -> bool, arrival: (U, U) -> T, big: (U, U) -> bool) {
    && (forall i, j :: big(i, j) ==> stands(arrival(i, j), j))
    && (forall x, i, j :: stands(x, i) && big(i, j) ==> Leads(rel, x, arrival(i, j)))
  }

  lemma {:induction false} LiftWalk<T(!new), U(!new)>(
      x: T, ids: seq<U>, rel: (T, T) -> bool, stands: (T, U) -> bool, arrival: (U, U) -> T, big: (U, U) -> bool)
    requires Lifts(rel, stands, arrival, big) && |ids| >= 2 && Walk(ids, big) && stands(x, ids[0])
    ensures Leads(rel, x, arrival(ids[|ids| - 2], ids[|ids| - 1]))
    decreases |ids|
  {
    var n := |ids| - 1;
    assert big(ids[n - 1], ids[n - 1 + 1]);
    if n > 1 {
      var init := ids[..n];
      forall k | 0 <= k < |init| - 1 ensures big(init[k], init[k + 1]) {
        assert init[k] == ids[k] && init[k + 1] == ids[k + 1];
      }
      LiftWalk(x, init, rel, stands, arrival, big);
      assert big(ids[n - 2], ids[n - 2 + 1]);
      var y := arrival(ids[n - 2], ids[n - 1]);
      LeadsOn(rel, x, y, arrival(ids[n - 1], ids[n]));
    }
  }

  /** Going round from where the last step arrives, one gets back to just there. */
  lemma LiftCycle<T(!new), U(!new)>(
      rel: (T, T) -> bool, stands: (T, U) -> bool, arrival: (U, U) -> T, big: (U, U) -> bool)
    requires Lifts(rel, stands, arrival, big) && Cyclic(big)
    ensures Cyclic(rel)
  {
    var ids: seq<U> :| |ids| >= 2 && ids[0] == ids[|ids| - 1] && Walk(ids, big);
    var n := |ids| - 1;
    assert big(ids[n - 1], ids[n - 1 + 1]);
    var x := arrival(ids[n - 1], ids[n]);
    LiftWalk(x, ids, rel, stands, arrival, big);
    var path: seq<T> :| |path| >= 2 && path[0] == x && path[|path| - 1] == x && Walk(path, rel);
  }
}
