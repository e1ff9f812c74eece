/**
 Comparing a deployed pod with a requested one without fighting other operators over environment
 variables they inject (core/framework/comparator.go, ignoreInjectedVariables): variables found only in
 the deployed container are copied to the requested one before the two are compared.
 */
module InjectedEnv {
  import opened Options
  import opened EnvVars
  import opened Sorting
  import opened Strings

  /** `image` stands for everything else that is compared. */
  datatype Container = Container(name: string, image: string, env: seq<EnvVar>)

  type Pod = seq<Container>

  function NameOf(c: Container): string { c.name }

  function ByName(cs: Pod): (r: Pod) {
    Sort(cs, ByKey(NameOf))
  }

  /** The environment the request ends up with. */
  function Merge(deployed: seq<EnvVar>, requested: seq<EnvVar>): seq<EnvVar> {
    if |deployed| > |requested| then requested + Diff(deployed, requested) else requested
  }

  function MergeAll(deployed: Pod, requested: Pod): (r: Pod)
    requires |deployed| == |requested|
    ensures |r| == |requested|
    ensures forall i :: 0 <= i < |r| ==> r[i] == requested[i].(env := Merge(deployed[i].env, requested[i].env))
  {
    seq(|requested|,
        i requires 0 <= i < |requested| => requested[i].(env := Merge(deployed[i].env, requested[i].env)))
  }

  lemma {:induction false} InsertLength(x: Container, xs: Pod)
    ensures |Insert(x, xs, ByKey(NameOf))| == |xs| + 1
  {
    if xs != [] && ByKey(NameOf)(xs[0], x) { InsertLength(x, xs[1..]); }
  }

  lemma {:induction false} ByNameLength(xs: Pod)
    ensures |ByName(xs)| == |xs|
  {
    if xs != [] {
      ByNameLength(xs[1..]);
      InsertLength(xs[0], ByName(xs[1..]));
    }
  }

  /** The requested pod after ignoreInjectedVariables; pods of different sizes are left alone. */
  function Rewritten(deployed: Pod, requested: Pod): Pod {
    if |deployed| != |requested| then requested
    else
      ByNameLength(deployed);
      ByNameLength(requested);
      MergeAll(ByName(deployed), ByName(requested))
  }

  /** Whether the comparison that follows asks for an update. */
  predicate NeedsUpdate(deployed: Pod, requested: Pod) {
    |deployed| != |requested| || ByName(deployed) != Rewritten(deployed, requested)
  }

  /** What is deployed after a reconcile. */
  function Reconciled(deployed: Pod, requested: Pod): Pod {
    if NeedsUpdate(deployed, requested) then Rewritten(deployed, requested) else deployed
  }

  // ------------------------------------------------------------------ sorting pairs containers up

  /** Two pods that agree, place by place, up to `rel`. */
  ghost predicate Paired(xs: Pod, ys: Pod, rel: (Container, Container) -> bool) {
    |xs| == |ys| && forall i :: 0 <= i < |xs| ==> xs[i].name == ys[i].name && rel(xs[i], ys[i])
  }

  lemma NameLess(x: Container, y: Container)
    ensures ByKey(NameOf)(x, y) <==> Less(x.name, y.name)
  {
    assert NameOf(x) == x.name && NameOf(y) == y.name;
  }

  lemma {:induction false} InsertPaired(x: Container, y: Container, xs: Pod, ys: Pod, rel: (Container, Container) -> bool)
    requires Paired(xs, ys, rel) && x.name == y.name && rel(x, y)
    ensures Paired(Insert(x, xs, ByKey(NameOf)), Insert(y, ys, ByKey(NameOf)), rel)
    decreases |xs|
  {
    var less := ByKey(NameOf);
    var a, b := Insert(x, xs, less), Insert(y, ys, less);
    if xs != [] {
      NameLess(xs[0], x);
      NameLess(ys[0], y);
      if less(xs[0], x) {
        InsertPaired(x, y, xs[1..], ys[1..], rel);
        var as_, bs := Insert(x, xs[1..], less), Insert(y, ys[1..], less);
        assert a == [xs[0]] + as_ && b == [ys[0]] + bs;
      } else {
        assert a == [x] + xs && b == [y] + ys;
      }
    }
  }

  /** Pods paired place by place are still paired after both are sorted. */
  lemma {:induction false} ByNamePaired(xs: Pod, ys: Pod, rel: (Container, Container) -> bool)
    requires Paired(xs, ys, rel)
    ensures Paired(ByName(xs), ByName(ys), rel)
    decreases |xs|
  {
    if xs != [] {
      ByNamePaired(xs[1..], ys[1..], rel);
      InsertPaired(xs[0], ys[0], ByName(xs[1..]), ByName(ys[1..]), rel);
    }
  }

  ghost predicate InOrder(xs: Pod) {
    Sorting.Sorted(xs, ByKey(NameOf))
  }

  lemma ByNameInOrder(xs: Pod)
    ensures InOrder(ByName(xs))
  {
    ByKeyOrders(NameOf);
    SortIsStable(xs, ByKey(NameOf));
  }

  lemma {:induction false} InOrderFixed(xs: Pod)
    requires InOrder(xs)
    ensures ByName(xs) == xs
    decreases |xs|
  {
    if xs != [] {
      InOrderFixed(xs[1..]);
      assert xs == [xs[0]] + xs[1..];
    }
  }

  // ------------------------------------------------------------------ one container

  lemma {:induction false} HasNameConcat(a: seq<EnvVar>, b: seq<EnvVar>, n: string)
    ensures HasName(a + b, n) <==> HasName(a, n) || HasName(b, n)
  {
    var c := a + b;
    if HasName(a, n) { var k :| 0 <= k < |a| && a[k].name == n; assert c[k].name == n; }
    if HasName(b, n) { var k :| 0 <= k < |b| && b[k].name == n; assert c[|a| + k].name == n; }
    if HasName(c, n) {
      var k :| 0 <= k < |c| && c[k].name == n;
      assert if k < |a| then a[k].name == n else b[k - |a|].name == n;
    }
  }

  lemma {:induction false} DiffNames(d: seq<EnvVar>, r: seq<EnvVar>, n: string)
    ensures HasName(Diff(d, r), n) <==> HasName(d, n) && !HasName(r, n)
  {
    DiffMembers(d, r);
  }

  /**
   A deployed name is dropped exactly when the request lacks it and has at least as many variables.  So
   a variable injected by someone else is lost once the request grows to the same length.
   */
  lemma MergeDropsIff(d: seq<EnvVar>, r: seq<EnvVar>, n: string)
    requires HasName(d, n)
    ensures !HasName(Merge(d, r), n) <==> !HasName(r, n) && |d| <= |r|
  {
    HasNameConcat(r, Diff(d, r), n);
    DiffNames(d, r, n);
  }

  /**
   Every deployed name is kept exactly when the deployed list is the longer one, or brings no name of
   its own.
   */
  lemma MergeKeepsNamesIff(d: seq<EnvVar>, r: seq<EnvVar>)
    ensures (forall n :: HasName(d, n) ==> HasName(Merge(d, r), n)) <==>
            |d| > |r| || forall n :: HasName(d, n) ==> HasName(r, n)
  {
    forall n | HasName(d, n) ensures !HasName(Merge(d, r), n) <==> !HasName(r, n) && |d| <= |r| {
      MergeDropsIff(d, r, n);
    }
  }

  /** With a longer deployed list, requested values win and the rest comes from what is deployed. */
  lemma MergeLookup(d: seq<EnvVar>, r: seq<EnvVar>, n: string)
    requires |d| > |r|
    ensures Lookup(Merge(d, r), n) == Or(Lookup(r, n), Lookup(d, n))
  {
    LookupConcat(r, Diff(d, r), n);
    if !HasName(r, n) { DiffLookup(d, r, n); }
  }

  lemma {:induction false} LookupConcat(a: seq<EnvVar>, b: seq<EnvVar>, n: string)
    ensures Lookup(a + b, n) == Or(Lookup(a, n), Lookup(b, n))
  {
    var p, q := Position(a, n), Position(b, n);
    if p < |a| {
      PositionIs(a + b, n, p);
    } else {
      PositionIs(a + b, n, |a| + q);
    }
  }

  lemma {:induction false} DiffLookup(d: seq<EnvVar>, r: seq<EnvVar>, n: string)
    requires !HasName(r, n)
    ensures Lookup(Diff(d, r), n) == Lookup(d, n)
    decreases |d|
  {
    if d != [] {
      var init, last := d[..|d| - 1], d[|d| - 1];
      DiffLookup(init, r, n);
      LookupConcat(init, [last], n);
      assert init + [last] == d;
      LookupConcat(Diff(init, r), if HasName(r, last.name) then [] else [last], n);
    }
  }

  lemma {:induction false} DiffLast(d: seq<EnvVar>, r: seq<EnvVar>, n: string)
    ensures LastOf(Diff(d, r), n) == if HasName(r, n) then None else LastOf(d, n)
    decreases |d|
  {
    if d != [] {
      var init, last := d[..|d| - 1], d[|d| - 1];
      DiffLast(init, r, n);
      LastOfConcat(Diff(init, r), if HasName(r, last.name) then [] else [last], n);
    }
  }

  /** The same for what a container sees, which is the last entry of a name. */
  lemma {:induction false} MergeLast(d: seq<EnvVar>, r: seq<EnvVar>, n: string)
    requires |d| > |r|
    ensures LastOf(Merge(d, r), n) == Or(LastOf(r, n), LastOf(d, n))
  {
    LastOfConcat(r, Diff(d, r), n);
    DiffLast(d, r, n);
    LastNone(r, n);
  }

  /** Merging again with the same request changes nothing. */
  lemma MergeFixed(d: seq<EnvVar>, r: seq<EnvVar>)
    ensures Merge(Merge(d, r), r) == Merge(d, r)
  {
    var extra := Diff(d, r);
    if |d| > |r| && extra != [] {
      DiffMembers(d, r);
      assert forall k :: 0 <= k < |extra| ==> extra[k] in extra;
      DiffOfExtension(r, extra);
    } else if |d| > |r| {
      assert r + extra == r;
    }
  }

  // ------------------------------------------------------------------ whole pods

  /** One reconcile is enough: right after it, the same request needs no update. */
  lemma ReconcileSettles(deployed: Pod, requested: Pod)
    ensures !NeedsUpdate(Reconciled(deployed, requested), requested)
  {
    if NeedsUpdate(deployed, requested) {
      ByNameLength(requested);
      ByNameLength(deployed);
      if |deployed| == |requested| {
        var rs, after := ByName(requested), Rewritten(deployed, requested);
        ByNameInOrder(requested);
        InOrderNames(rs, after);
        InOrderFixed(after);
        MergeAllFixed(ByName(deployed), rs);
      }
    }
  }

  lemma InOrderNames(a: Pod, b: Pod)
    requires |a| == |b| && InOrder(a) && forall i :: 0 <= i < |a| ==> a[i].name == b[i].name
    ensures InOrder(b)
  {
    forall i, j | 0 <= i < j < |b| ensures !ByKey(NameOf)(b[j], b[i]) {
      NameLess(a[j], a[i]);
      NameLess(b[j], b[i]);
    }
  }

  lemma MergeAllFixed(ds: Pod, rs: Pod)
    requires |ds| == |rs|
    ensures MergeAll(MergeAll(ds, rs), rs) == MergeAll(ds, rs)
  {
    forall i | 0 <= i < |rs| ensures MergeAll(MergeAll(ds, rs), rs)[i] == MergeAll(ds, rs)[i] {
      MergeFixed(ds[i].env, rs[i].env);
    }
  }

  /** `d` is the requested container followed by variables under names of their own. */
  predicate Extended(d: Container, r: Container) {
    && d.image == r.image && r.env <= d.env
    && forall k :: |r.env| <= k < |d.env| ==> !HasName(r.env, d.env[k].name)
  }

  lemma ExtendedMerge(d: Container, r: Container)
    requires Extended(d, r) && d.name == r.name
    ensures r.(env := Merge(d.env, r.env)) == d
  {
    var extra := d.env[|r.env|..];
    assert d.env == r.env + extra;
    if extra != [] { DiffOfExtension(r.env, extra); }
  }

  lemma MergeExtends(d: Container, r: Container)
    ensures Extended(r.(env := Merge(d.env, r.env)), r)
  {
    var extra := Diff(d.env, r.env);
    DiffMembers(d.env, r.env);
    assert forall k :: 0 <= k < |extra| ==> extra[k] in extra;
  }

  /** Container by container, in the order of their names, the deployed pod extends the requested one. */
  ghost predicate Aligned(deployed: Pod, requested: Pod) {
    Paired(ByName(deployed), ByName(requested), Extended)
  }

  /** The comparator rewrites the request to exactly what is deployed. */
  lemma AlignedRewrites(deployed: Pod, requested: Pod)
    requires Aligned(deployed, requested)
    ensures |deployed| == |requested| && Rewritten(deployed, requested) == ByName(deployed)
  {
    ByNameLength(deployed);
    ByNameLength(requested);
    var ds, rs := ByName(deployed), ByName(requested);
    forall i | 0 <= i < |ds| ensures MergeAll(ds, rs)[i] == ds[i] {
      ExtendedMerge(ds[i], rs[i]);
    }
    assert MergeAll(ds, rs) == ds;
  }

  /** No update is asked for exactly when what is deployed is the request plus variables under names of their own. */
  lemma NeedsNoUpdateIffAligned(deployed: Pod, requested: Pod)
    ensures !NeedsUpdate(deployed, requested) <==> Aligned(deployed, requested)
  {
    ByNameLength(deployed);
    ByNameLength(requested);
    if Aligned(deployed, requested) {
      AlignedRewrites(deployed, requested);
    }
    if !NeedsUpdate(deployed, requested) {
      var ds, rs := ByName(deployed), ByName(requested);
      forall i | 0 <= i < |ds| ensures ds[i].name == rs[i].name && Extended(ds[i], rs[i]) {
        assert ds[i] == MergeAll(ds, rs)[i];
        MergeExtends(ds[i], rs[i]);
      }
    }
  }

  // ------------------------------------------------------------------ runs with other operators

  /** Another operator appends a variable to a container, or this one reconciles. */
  datatype Step = Inject(container: nat, e: EnvVar) | Reconcile

  /** Injected names are new to the container. */
  predicate Fresh(deployed: Pod, step: Step) {
    step.Inject? && step.container < |deployed| ==> !HasName(deployed[step.container].env, step.e.name)
  }

  function Next(deployed: Pod, requested: Pod, step: Step): Pod {
    match step
    case Inject(i, e) => if i < |deployed| then deployed[i := deployed[i].(env := deployed[i].env + [e])] else deployed
    case Reconcile => Reconciled(deployed, requested)
  }

  function Run(deployed: Pod, requested: Pod, steps: seq<Step>): Pod
    decreases |steps|
  {
    if steps == [] then deployed else Run(Next(deployed, requested, steps[0]), requested, steps[1..])
  }

  predicate FreshRun(deployed: Pod, requested: Pod, steps: seq<Step>)
    decreases |steps|
  {
    steps == [] ||
    (Fresh(deployed, steps[0]) && FreshRun(Next(deployed, requested, steps[0]), requested, steps[1..]))
  }

  /** The reconciles of a run that updated the deployment. */
  function Updates(deployed: Pod, requested: Pod, steps: seq<Step>): nat
    decreases |steps|
  {
    if steps == [] then 0 else
    (if steps[0].Reconcile? && NeedsUpdate(deployed, requested) then 1 else 0) +
    Updates(Next(deployed, requested, steps[0]), requested, steps[1..])
  }

  /** `y` is `x`, or `x` with a variable appended that is new to it. */
  predicate Grown(x: Container, y: Container, e: EnvVar) {
    y == x || (y == x.(env := x.env + [e]) && !HasName(x.env, e.name))
  }

  lemma InjectAligned(deployed: Pod, requested: Pod, i: nat, e: EnvVar)
    requires Aligned(deployed, requested) && i < |deployed| && !HasName(deployed[i].env, e.name)
    ensures Aligned(Next(deployed, requested, Inject(i, e)), requested)
  {
    var next := Next(deployed, requested, Inject(i, e));
    var rel := (x: Container, y: Container) => Grown(x, y, e);
    assert Paired(deployed, next, rel);
    ByNamePaired(deployed, next, rel);
    var ds, ns, rs := ByName(deployed), ByName(next), ByName(requested);
    forall k | 0 <= k < |ns| ensures ns[k].name == rs[k].name && Extended(ns[k], rs[k]) {
      assert rel(ds[k], ns[k]);
    }
  }

  lemma NextAligned(deployed: Pod, requested: Pod, step: Step)
    requires Aligned(deployed, requested) && Fresh(deployed, step)
    ensures Aligned(Next(deployed, requested, step), requested)
  {
    match step {
      case Inject(i, e) => if i < |deployed| { InjectAligned(deployed, requested, i, e); }
      case Reconcile => NeedsNoUpdateIffAligned(deployed, requested);
    }
  }

  /**
   In every run that mixes fresh injections and reconciles of an unchanged request, the deployed
   containers stay "requested followed by injected", every injected variable is kept, and nothing is
   ever updated.
   */
  lemma {:induction false} InjectedSurvive(deployed: Pod, requested: Pod, steps: seq<Step>)
    requires Aligned(deployed, requested) && FreshRun(deployed, requested, steps)
    ensures Aligned(Run(deployed, requested, steps), requested)
    ensures Updates(deployed, requested, steps) == 0
    ensures |Run(deployed, requested, steps)| == |deployed|
    ensures forall i :: 0 <= i < |deployed| ==> deployed[i].env <= Run(deployed, requested, steps)[i].env
    decreases |steps|
  {
    if steps != [] {
      NeedsNoUpdateIffAligned(deployed, requested);
      NextAligned(deployed, requested, steps[0]);
      InjectedSurvive(Next(deployed, requested, steps[0]), requested, steps[1..]);
    }
  }

  /**
   Whatever is deployed and whatever is requested, every run of fresh injections and reconciles updates
   the deployment at most once: the update leaves a state from which everything survives.
   */
  lemma {:induction false} AtMostOneUpdate(deployed: Pod, requested: Pod, steps: seq<Step>)
    requires FreshRun(deployed, requested, steps)
    ensures Updates(deployed, requested, steps) <= 1
    ensures Reconcile in steps ==> Aligned(Run(deployed, requested, steps), requested)
    decreases |steps|
  {
    if steps != [] {
      var next := Next(deployed, requested, steps[0]);
      if steps[0].Reconcile? {
        ReconcileSettles(deployed, requested);
        NeedsNoUpdateIffAligned(next, requested);
        InjectedSurvive(next, requested, steps[1..]);
      } else {
        AtMostOneUpdate(next, requested, steps[1..]);
      }
    }
  }

  // ------------------------------------------------------------------ the loop

  class PodTemplate {
    var containers: seq<Container>
  }

  /** The loop over the sorted containers. */
  method MergeContainers(ds: Pod, rs: Pod) returns (merged: Pod)
    requires |ds| == |rs|
    ensures merged == MergeAll(ds, rs)
  {
    merged := rs;
    for i := 0 to |ds|
      invariant |merged| == |rs|
      invariant forall j :: 0 <= j < |rs| ==>
                  merged[j] == if j < i then rs[j].(env := Merge(ds[j].env, rs[j].env)) else rs[j]
    {
      var d, r := ds[i].env, merged[i].env;
      if |d| > |r| {
        var diff := DiffEnvVar(d, r);
        if |diff| > 0 {
          merged := merged[i := merged[i].(env := r + diff)];
        } else {
          assert r + diff == r;
        }
      }
    }
  }

  method IgnoreInjectedVariables(deployed: PodTemplate, requested: PodTemplate)
    requires deployed != requested
    modifies deployed, requested
    ensures requested.containers == Rewritten(old(deployed.containers), old(requested.containers))
    ensures deployed.containers ==
            if |old(deployed.containers)| == |old(requested.containers)| then ByName(old(deployed.containers))
            else old(deployed.containers)
  {
    if |deployed.containers| != |requested.containers| { return; }
    ByNameLength(deployed.containers);
    ByNameLength(requested.containers);
    ByKeyOrders(NameOf);
    deployed.containers := SliceStable(deployed.containers, ByKey(NameOf));
    requested.containers := SliceStable(requested.containers, ByKey(NameOf));
    requested.containers := MergeContainers(deployed.containers, requested.containers);
  }
}
