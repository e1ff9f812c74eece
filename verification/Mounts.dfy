/**
 Mounting ConfigMaps and Secrets on a deployment (core/infrastructure/configmap.go and secret.go) and
 sorting what was mounted (core/framework/comparator.go).  Go walks the keys of a Data map in no fixed
 order; the order is an input here, and sorting is shown to remove it.
 */
module Mounts {
  import opened Options
  import opened Strings
  import opened Paths
  import opened Sorting

  datatype Kind = ConfigMap | Secret

  datatype Volume = Volume(name: string, kind: Kind, mode: int, optional: Option<bool>)

  datatype Mount = Mount(volume: string, path: string, subPath: string)

  datatype EnvFrom = EnvFrom(kind: Kind, name: string)

  /** A volume reference, with the handler that will mount it. */
  datatype Ref = Ref(kind: Kind, name: string, mountPath: string, mode: Option<int>, optional: Option<bool>)

  datatype Pod = Pod(volumes: seq<Volume>, mounts: seq<Mount>)

  const DefaultFileMountPath := "/home/kogito/config"
  /** 0644 */
  const ModeForPropertyFiles := 420

  function NameOf(v: Volume): string { v.name }
  function PathOf(m: Mount): string { m.path }

  predicate HasVolume(volumes: seq<Volume>, name: string) {
    exists k :: 0 <= k < |volumes| && volumes[k].name == name
  }

  predicate HasPath(mounts: seq<Mount>, path: string) {
    exists k :: 0 <= k < |mounts| && mounts[k].path == path
  }

  function VolumeOf(r: Ref): Volume {
    Volume(r.name, r.kind, if r.mode.Some? then r.mode.value else ModeForPropertyFiles, r.optional)
  }

  function Dir(r: Ref): (d: string)
    ensures d != ""
  {
    if r.mountPath == "" then DefaultFileMountPath else r.mountPath
  }

  function MountOf(r: Ref, file: string): Mount {
    Mount(r.name, JoinPath(Dir(r), file), file)
  }

  /** appendVolumeIntoDeployment: by name only, whatever the kind. */
  function AddVolume(volumes: seq<Volume>, r: Ref): seq<Volume> {
    if HasVolume(volumes, r.name) then volumes else volumes + [VolumeOf(r)]
  }

  function AddMount(mounts: seq<Mount>, m: Mount): seq<Mount> {
    if HasPath(mounts, m.path) then mounts else mounts + [m]
  }

  /** appendVolumeMountIntoDeployment, walking the keys in the given order. */
  function AddMounts(mounts: seq<Mount>, r: Ref, files: seq<string>): seq<Mount> {
    if files == [] then mounts
    else AddMount(AddMounts(mounts, r, files[..|files| - 1]), MountOf(r, files[|files| - 1]))
  }

  /** MountAsVolume */
  function MountRef(pod: Pod, r: Ref, files: seq<string>): Pod {
    Pod(AddVolume(pod.volumes, r), AddMounts(pod.mounts, r, files))
  }

  /** All references in turn, each with its own key order. */
  function MountAll(pod: Pod, refs: seq<Ref>, orders: seq<seq<string>>): Pod
    requires |orders| == |refs|
    decreases |refs|
  {
    if refs == [] then pod else MountAll(MountRef(pod, refs[0], orders[0]), refs[1..], orders[1..])
  }

  /** sortVolumes */
  function SortedPod(pod: Pod): Pod {
    Pod(Sort(pod.volumes, ByKey(NameOf)), Sort(pod.mounts, ByKey(PathOf)))
  }

  /** Volumes by name and mounts by path, each from the least to the greatest. */
  predicate InOrder(pod: Pod) {
    && (forall i, j :: 0 <= i < j < |pod.volumes| ==> !Less(pod.volumes[j].name, pod.volumes[i].name))
    && (forall i, j :: 0 <= i < j < |pod.mounts| ==> !Less(pod.mounts[j].path, pod.mounts[i].path))
  }

  lemma SortedInOrder(pod: Pod)
    requires Sorted(pod.volumes, ByKey(NameOf)) && Sorted(pod.mounts, ByKey(PathOf))
    ensures InOrder(pod)
  {
    forall i, j | 0 <= i < j < |pod.volumes| ensures !Less(pod.volumes[j].name, pod.volumes[i].name) {
      ByKeyIs(NameOf, pod.volumes[j], pod.volumes[i]);
    }
    forall i, j | 0 <= i < j < |pod.mounts| ensures !Less(pod.mounts[j].path, pod.mounts[i].path) {
      ByKeyIs(PathOf, pod.mounts[j], pod.mounts[i]);
    }
  }

  /** Distinct volume names, distinct mount paths, and every mount names a volume. */
  ghost predicate Integral(pod: Pod) {
    && DistinctKeys(pod.volumes, NameOf) && DistinctKeys(pod.mounts, PathOf)
    && forall k :: 0 <= k < |pod.mounts| ==> HasVolume(pod.volumes, pod.mounts[k].volume)
  }

  // ------------------------------------------------------------------ integrity

  lemma HasPathAppend(mounts: seq<Mount>, m: Mount, path: string)
    ensures HasPath(mounts + [m], path) <==> HasPath(mounts, path) || m.path == path
  {
    var more := mounts + [m];
    if HasPath(mounts, path) {
      var k :| 0 <= k < |mounts| && mounts[k].path == path;
      assert more[k].path == path;
    }
    assert more[|mounts|] == m;
  }

  lemma HasVolumeAppend(volumes: seq<Volume>, v: Volume, name: string)
    ensures HasVolume(volumes + [v], name) <==> HasVolume(volumes, name) || v.name == name
  {
    var more := volumes + [v];
    if HasVolume(volumes, name) {
      var k :| 0 <= k < |volumes| && volumes[k].name == name;
      assert more[k].name == name;
    }
    assert more[|volumes|] == v;
  }

  lemma AddVolumeOk(volumes: seq<Volume>, r: Ref)
    requires DistinctKeys(volumes, NameOf)
    ensures DistinctKeys(AddVolume(volumes, r), NameOf)
    ensures forall n :: HasVolume(AddVolume(volumes, r), n) <==> HasVolume(volumes, n) || n == r.name
  {
    forall n ensures HasVolume(AddVolume(volumes, r), n) <==> HasVolume(volumes, n) || n == r.name {
      HasVolumeAppend(volumes, VolumeOf(r), n);
    }
  }

  /** What one reference adds: its files, except where a path was taken. */
  lemma {:induction false} AddMountsOk(mounts: seq<Mount>, r: Ref, files: seq<string>)
    requires DistinctKeys(mounts, PathOf)
    ensures DistinctKeys(AddMounts(mounts, r, files), PathOf) && mounts <= AddMounts(mounts, r, files)
    ensures forall m :: m in AddMounts(mounts, r, files) && m !in mounts ==> m.volume == r.name
    ensures forall f :: f in files ==> HasPath(AddMounts(mounts, r, files), MountOf(r, f).path)
    decreases |files|
  {
    if files != [] {
      var init, last := files[..|files| - 1], files[|files| - 1];
      AddMountsOk(mounts, r, init);
      var ms, m := AddMounts(mounts, r, init), MountOf(r, last);
      forall f | f in files ensures HasPath(AddMount(ms, m), MountOf(r, f).path) {
        HasPathAppend(ms, m, MountOf(r, f).path);
        assert f == last || f in init;
      }
    }
  }

  lemma MountRefOk(pod: Pod, r: Ref, files: seq<string>)
    requires Integral(pod)
    ensures Integral(MountRef(pod, r, files))
  {
    AddVolumeOk(pod.volumes, r);
    AddMountsOk(pod.mounts, r, files);
    var after := MountRef(pod, r, files);
    forall k | 0 <= k < |after.mounts| ensures HasVolume(after.volumes, after.mounts[k].volume) {
      var m := after.mounts[k];
      if m in pod.mounts {
        var j :| 0 <= j < |pod.mounts| && pod.mounts[j] == m;
      }
    }
  }

  /** Any sequence of ConfigMap and Secret mounts keeps the pod integral, and only adds to it. */
  lemma {:induction false} MountAllOk(pod: Pod, refs: seq<Ref>, orders: seq<seq<string>>)
    requires |orders| == |refs| && Integral(pod)
    ensures Integral(MountAll(pod, refs, orders))
    ensures pod.volumes <= MountAll(pod, refs, orders).volumes && pod.mounts <= MountAll(pod, refs, orders).mounts
    decreases |refs|
  {
    if refs != [] {
      MountRefOk(pod, refs[0], orders[0]);
      AddMountsOk(pod.mounts, refs[0], orders[0]);
      MountAllOk(MountRef(pod, refs[0], orders[0]), refs[1..], orders[1..]);
    }
  }

  // ------------------------------------------------------------------ repeating changes nothing

  predicate Absorbed(pod: Pod, r: Ref, files: seq<string>) {
    HasVolume(pod.volumes, r.name) && forall k :: 0 <= k < |files| ==> HasPath(pod.mounts, MountOf(r, files[k]).path)
  }

  lemma {:induction false} AbsorbedIsNoOp(pod: Pod, r: Ref, files: seq<string>)
    requires Absorbed(pod, r, files)
    ensures MountRef(pod, r, files) == pod
    decreases |files|
  {
    if files != [] {
      var init := files[..|files| - 1];
      assert forall k :: 0 <= k < |init| ==> init[k] == files[k];
      AbsorbedIsNoOp(pod, r, init);
    }
  }

  predicate SameFiles(a: seq<string>, b: seq<string>) {
    (forall k :: 0 <= k < |a| ==> a[k] in b) && forall k :: 0 <= k < |b| ==> b[k] in a
  }

  predicate SameKeys(as_: seq<seq<string>>, bs: seq<seq<string>>) {
    |as_| == |bs| && forall i :: 0 <= i < |as_| ==> SameFiles(as_[i], bs[i])
  }

  lemma MountAbsorbs(pod: Pod, r: Ref, files: seq<string>, again: seq<string>)
    requires Integral(pod) && SameFiles(files, again)
    ensures Absorbed(MountRef(pod, r, files), r, again)
  {
    AddVolumeOk(pod.volumes, r);
    AddMountsOk(pod.mounts, r, files);
  }

  lemma {:induction false} AllAbsorbed(pod: Pod, refs: seq<Ref>, orders: seq<seq<string>>, again: seq<seq<string>>, i: nat)
    requires Integral(pod) && |orders| == |refs| && SameKeys(orders, again) && i < |refs|
    ensures Absorbed(MountAll(pod, refs, orders), refs[i], again[i])
    decreases |refs|
  {
    var next := MountRef(pod, refs[0], orders[0]);
    MountRefOk(pod, refs[0], orders[0]);
    if i == 0 {
      MountAbsorbs(pod, refs[0], orders[0], again[0]);
      MountAllOk(next, refs[1..], orders[1..]);
    } else {
      AllAbsorbed(next, refs[1..], orders[1..], again[1..], i - 1);
    }
  }

  lemma {:induction false} AbsorbedAllNoOp(pod: Pod, refs: seq<Ref>, orders: seq<seq<string>>)
    requires |orders| == |refs| && forall i :: 0 <= i < |refs| ==> Absorbed(pod, refs[i], orders[i])
    ensures MountAll(pod, refs, orders) == pod
    decreases |refs|
  {
    if refs != [] {
      AbsorbedIsNoOp(pod, refs[0], orders[0]);
      AbsorbedAllNoOp(pod, refs[1..], orders[1..]);
    }
  }

  /** Mounting the whole list again, with the keys in any order, changes nothing. */
  lemma MountAllIdempotent(pod: Pod, refs: seq<Ref>, orders: seq<seq<string>>, again: seq<seq<string>>)
    requires Integral(pod) && |orders| == |refs| && SameKeys(orders, again)
    ensures MountAll(MountAll(pod, refs, orders), refs, again) == MountAll(pod, refs, orders)
  {
    var once := MountAll(pod, refs, orders);
    forall i | 0 <= i < |refs| ensures Absorbed(once, refs[i], again[i]) {
      AllAbsorbed(pod, refs, orders, again, i);
    }
    AbsorbedAllNoOp(once, refs, again);
  }

  // ------------------------------------------------------------------ map order does not matter

  ghost predicate SameElements<T(!new)>(a: seq<T>, b: seq<T>) {
    forall x :: x in a <==> x in b
  }

  /** The mounts after one reference, as a set: independent of the order of the keys. */
  lemma {:induction false} AddMountsMembers(mounts: seq<Mount>, r: Ref, files: seq<string>, m: Mount)
    requires DistinctKeys(mounts, PathOf) && forall k :: 0 <= k < |files| ==> ValidKey(files[k])
    ensures m in AddMounts(mounts, r, files) <==>
            m in mounts || (m.subPath in files && m == MountOf(r, m.subPath) && !HasPath(mounts, m.path))
    decreases |files|
  {
    if files != [] {
      var init, last := files[..|files| - 1], files[|files| - 1];
      AddMountsMembers(mounts, r, init, m);
      var ms, added := AddMounts(mounts, r, init), MountOf(r, last);
      assert m.subPath in files <==> m.subPath in init || m.subPath == last;
      TakenPath(mounts, r, init, last);
    }
  }

  /** The path of a further key is taken only by an older mount or by the same key. */
  lemma {:induction false} TakenPath(mounts: seq<Mount>, r: Ref, files: seq<string>, f: string)
    requires DistinctKeys(mounts, PathOf) && ValidKey(f) && forall k :: 0 <= k < |files| ==> ValidKey(files[k])
    ensures HasPath(AddMounts(mounts, r, files), MountOf(r, f).path) <==>
            HasPath(mounts, MountOf(r, f).path) || f in files
    decreases |files|
  {
    if files != [] {
      var init, last := files[..|files| - 1], files[|files| - 1];
      TakenPath(mounts, r, init, f);
      HasPathAppend(AddMounts(mounts, r, init), MountOf(r, last), MountOf(r, f).path);
      assert f in files <==> f in init || f == last;
      if MountOf(r, last).path == MountOf(r, f).path {
        JoinInjective(Dir(r), last, f);
      }
    }
  }

  lemma HasPathSame(a: seq<Mount>, b: seq<Mount>, path: string)
    requires SameElements(a, b) && HasPath(a, path)
    ensures HasPath(b, path)
  {
    var k :| 0 <= k < |a| && a[k].path == path;
    assert a[k] in a && a[k] in b;
    var j :| 0 <= j < |b| && b[j] == a[k];
  }

  lemma AddMountsSame(a: seq<Mount>, b: seq<Mount>, r: Ref, fs: seq<string>, gs: seq<string>)
    requires DistinctKeys(a, PathOf) && DistinctKeys(b, PathOf) && SameElements(a, b) && SameFiles(fs, gs)
    requires forall k :: 0 <= k < |fs| ==> ValidKey(fs[k])
    ensures SameElements(AddMounts(a, r, fs), AddMounts(b, r, gs))
  {
    forall k | 0 <= k < |gs| ensures ValidKey(gs[k]) {
      var j :| 0 <= j < |fs| && fs[j] == gs[k];
    }
    forall m ensures m in AddMounts(a, r, fs) <==> m in AddMounts(b, r, gs) {
      AddMountsMembers(a, r, fs, m);
      AddMountsMembers(b, r, gs, m);
      assert m.subPath in fs <==> m.subPath in gs;
      if HasPath(a, m.path) { HasPathSame(a, b, m.path); }
      if HasPath(b, m.path) { HasPathSame(b, a, m.path); }
    }
  }

  predicate ValidKeys(orders: seq<seq<string>>) {
    forall i, k :: 0 <= i < |orders| && 0 <= k < |orders[i]| ==> ValidKey(orders[i][k])
  }

  lemma {:induction false} MountAllSame(p: Pod, q: Pod, refs: seq<Ref>, os: seq<seq<string>>, ns: seq<seq<string>>)
    requires Integral(p) && Integral(q) && p.volumes == q.volumes && SameElements(p.mounts, q.mounts)
    requires |os| == |refs| && SameKeys(os, ns) && ValidKeys(os)
    ensures var a, b := MountAll(p, refs, os), MountAll(q, refs, ns);
            Integral(a) && Integral(b) && a.volumes == b.volumes && SameElements(a.mounts, b.mounts)
    decreases |refs|
  {
    if refs != [] {
      MountRefOk(p, refs[0], os[0]);
      MountRefOk(q, refs[0], ns[0]);
      AddMountsSame(p.mounts, q.mounts, refs[0], os[0], ns[0]);
      MountAllSame(MountRef(p, refs[0], os[0]), MountRef(q, refs[0], ns[0]), refs[1..], os[1..], ns[1..]);
    }
  }

  lemma {:induction false} DistinctCount(a: seq<Mount>, m: Mount)
    requires DistinctKeys(a, PathOf)
    ensures multiset(a)[m] == if m in a then 1 else 0
  {
    if a != [] {
      var init, last := a[..|a| - 1], a[|a| - 1];
      assert a == init + [last];
      DistinctCount(init, m);
      assert m in a <==> m in init || m == last;
      assert last !in init;
    }
  }

  /**
   Map-order independence: whatever orders the two passes walked the Data maps in, sorting gives the
   same volumes and the same mounts.
   */
  lemma SortingForgetsMapOrder(pod: Pod, refs: seq<Ref>, os: seq<seq<string>>, ns: seq<seq<string>>)
    requires Integral(pod) && |os| == |refs| && SameKeys(os, ns) && ValidKeys(os)
    ensures SortedPod(MountAll(pod, refs, os)) == SortedPod(MountAll(pod, refs, ns))
  {
    MountAllSame(pod, pod, refs, os, ns);
    var a, b := MountAll(pod, refs, os), MountAll(pod, refs, ns);
    forall m ensures multiset(a.mounts)[m] == multiset(b.mounts)[m] {
      DistinctCount(a.mounts, m);
      DistinctCount(b.mounts, m);
    }
    assert multiset(a.mounts) == multiset(b.mounts);
    CanonicalByKey(a.mounts, b.mounts, PathOf);
  }

  /** Without sorting the order shows: two keys, walked either way, give two different mount lists. */
  lemma UnsortedOrderShows(r: Ref, f: string, g: string)
    requires ValidKey(f) && ValidKey(g) && f != g
    ensures AddMounts([], r, [f, g]) == [MountOf(r, f), MountOf(r, g)]
    ensures AddMounts([], r, [g, f]) == [MountOf(r, g), MountOf(r, f)]
  {
    AddTwo(r, f, g);
    AddTwo(r, g, f);
  }

  lemma AddTwo(r: Ref, f: string, g: string)
    requires ValidKey(f) && ValidKey(g) && f != g
    ensures AddMounts([], r, [f, g]) == [MountOf(r, f), MountOf(r, g)]
  {
    assert [f, g][..1] == [f] && [f][..0] == [];
    assert AddMounts([], r, [f]) == AddMount([], MountOf(r, f)) == [MountOf(r, f)];
    if MountOf(r, f).path == MountOf(r, g).path { JoinInjective(Dir(r), f, g); }
    assert !HasPath([MountOf(r, f)], MountOf(r, g).path);
  }

  // ------------------------------------------------------------------ volumes of the right kind

  function AddVolumes(volumes: seq<Volume>, refs: seq<Ref>): seq<Volume> {
    if refs == [] then volumes else AddVolume(AddVolumes(volumes, refs[..|refs| - 1]), refs[|refs| - 1])
  }

  lemma {:induction false} AddVolumesConcat(volumes: seq<Volume>, a: seq<Ref>, b: seq<Ref>)
    ensures AddVolumes(volumes, a + b) == AddVolumes(AddVolumes(volumes, a), b)
    decreases |b|
  {
    if b == [] {
      assert a + b == a;
    } else {
      assert (a + b)[..|a + b| - 1] == a + b[..|b| - 1];
      AddVolumesConcat(volumes, a, b[..|b| - 1]);
    }
  }

  lemma {:induction false} MountAllVolumes(pod: Pod, refs: seq<Ref>, orders: seq<seq<string>>)
    requires |orders| == |refs|
    ensures MountAll(pod, refs, orders).volumes == AddVolumes(pod.volumes, refs)
    decreases |refs|
  {
    if refs != [] {
      MountAllVolumes(MountRef(pod, refs[0], orders[0]), refs[1..], orders[1..]);
      AddVolumesConcat(pod.volumes, [refs[0]], refs[1..]);
      assert [refs[0]] + refs[1..] == refs && [refs[0]][..0] == [];
    }
  }

  predicate FirstNamed(refs: seq<Ref>, i: nat)
    requires i < |refs|
  {
    forall j :: 0 <= j < i ==> refs[j].name != refs[i].name
  }

  /** A volume of a fresh pod is made from the first reference of its name. */
  lemma {:induction false} VolumeFromFirst(refs: seq<Ref>, v: Volume) returns (i: nat)
    requires v in AddVolumes([], refs)
    ensures i < |refs| && FirstNamed(refs, i) && v == VolumeOf(refs[i])
    decreases |refs|
  {
    var n, init := |refs| - 1, refs[..|refs| - 1];
    var vs := AddVolumes([], init);
    if v in vs {
      i := VolumeFromFirst(init, v);
      assert init[i] == refs[i] && forall j :: 0 <= j < i ==> init[j] == refs[j];
    } else {
      i := n;
      forall j | 0 <= j < n ensures refs[j].name != refs[n].name {
        NameHasVolume(init, j);
        assert init[j] == refs[j];
      }
    }
  }

  lemma {:induction false} NameHasVolume(refs: seq<Ref>, j: nat)
    requires j < |refs|
    ensures HasVolume(AddVolumes([], refs), refs[j].name)
    decreases |refs|
  {
    var n, init := |refs| - 1, refs[..|refs| - 1];
    var vs := AddVolumes([], init);
    HasVolumeAppend(vs, VolumeOf(refs[n]), refs[j].name);
    if j < n {
      NameHasVolume(init, j);
      assert init[j] == refs[j];
    }
  }

  /** There is exactly one volume for every name: the one its first reference makes. */
  lemma {:induction false} FirstHasVolume(refs: seq<Ref>, i: nat)
    requires i < |refs| && FirstNamed(refs, i)
    ensures VolumeOf(refs[i]) in AddVolumes([], refs)
  {
    NameHasVolume(refs, i);
    var vs := AddVolumes([], refs);
    var k :| 0 <= k < |vs| && vs[k].name == refs[i].name;
    assert vs[k] in vs;
    var j := VolumeFromFirst(refs, vs[k]);
    assert j == i;
  }

  /** Each reference finds a volume of its own name and kind. */
  ghost predicate KindsServed(volumes: seq<Volume>, refs: seq<Ref>) {
    forall i :: 0 <= i < |refs| ==> exists v :: v in volumes && v.name == refs[i].name && v.kind == refs[i].kind
  }

  /**
   A Secret that shares its name with a ConfigMap mounted before it gets the ConfigMap's volume.
   References are served by volumes of their own kind exactly when no name is used for both kinds.
   */
  lemma {:induction false} KindsServedIffNamesNotShared(refs: seq<Ref>, orders: seq<seq<string>>)
    requires |orders| == |refs|
    ensures KindsServed(MountAll(Pod([], []), refs, orders).volumes, refs) <==>
            forall i, j :: 0 <= i < |refs| && 0 <= j < |refs| && refs[i].name == refs[j].name ==>
              refs[i].kind == refs[j].kind
  {
    MountAllVolumes(Pod([], []), refs, orders);
    var vs := AddVolumes([], refs);
    if KindsServed(vs, refs) {
      forall i, j | 0 <= i < |refs| && 0 <= j < |refs| && refs[i].name == refs[j].name
        ensures refs[i].kind == refs[j].kind
      {
        SameVolume(refs, i, j);
      }
    }
    if forall i, j :: 0 <= i < |refs| && 0 <= j < |refs| && refs[i].name == refs[j].name ==> refs[i].kind == refs[j].kind {
      forall i | 0 <= i < |refs|
        ensures exists v :: v in vs && v.name == refs[i].name && v.kind == refs[i].kind
      {
        var k := FirstOf(refs, i);
        FirstHasVolume(refs, k);
      }
    }
  }

  lemma FirstOf(refs: seq<Ref>, i: nat) returns (k: nat)
    requires i < |refs|
    ensures k <= i && refs[k].name == refs[i].name && FirstNamed(refs, k)
  {
    k := 0;
    while refs[k].name != refs[i].name
      invariant k <= i && forall j :: 0 <= j < k ==> refs[j].name != refs[i].name
      decreases i - k
    {
      k := k + 1;
    }
  }

  lemma {:induction false} SameVolume(refs: seq<Ref>, i: nat, j: nat)
    requires i < |refs| && j < |refs| && refs[i].name == refs[j].name
    requires KindsServed(AddVolumes([], refs), refs)
    ensures refs[i].kind == refs[j].kind
  {
    var vs := AddVolumes([], refs);
    var v :| v in vs && v.name == refs[i].name && v.kind == refs[i].kind;
    var w :| w in vs && w.name == refs[j].name && w.kind == refs[j].kind;
    var a := VolumeFromFirst(refs, v);
    var b := VolumeFromFirst(refs, w);
    assert a == b;
  }

  // ------------------------------------------------------------------ whose file is at a path

  /** Reference `i` asks for a file at `path`. */
  predicate Asks(refs: seq<Ref>, orders: seq<seq<string>>, i: nat, path: string) {
    i < |refs| == |orders| && exists f :: f in orders[i] && MountOf(refs[i], f).path == path
  }

  predicate NotBefore(refs: seq<Ref>, orders: seq<seq<string>>, i: nat, path: string) {
    forall j :: 0 <= j < i ==> !Asks(refs, orders, j, path)
  }

  /** The mount `m` is one of reference `i`, and no earlier one asks for its path. */
  predicate FirstAt(refs: seq<Ref>, orders: seq<seq<string>>, i: nat, m: Mount) {
    i < |refs| == |orders| && m.subPath in orders[i] && m == MountOf(refs[i], m.subPath) && NotBefore(refs, orders, i, m.path)
  }

  predicate Owned(refs: seq<Ref>, orders: seq<seq<string>>, m: Mount) {
    exists i :: 0 <= i < |refs| && FirstAt(refs, orders, i, m)
  }

  /** The mounts of a fresh deployment: every path belongs to the first reference that asks for it. */
  ghost predicate FirstComeMounts(refs: seq<Ref>, orders: seq<seq<string>>, mounts: seq<Mount>) {
    && (forall m :: m in mounts <==> Owned(refs, orders, m))
    && (forall p :: HasPath(mounts, p) <==> !NotBefore(refs, orders, |refs|, p))
  }

  lemma AsksSnoc(refs: seq<Ref>, orders: seq<seq<string>>, r: Ref, files: seq<string>, i: nat, path: string)
    requires |refs| == |orders| && i <= |refs|
    ensures Asks(refs + [r], orders + [files], i, path) <==>
            if i < |refs| then Asks(refs, orders, i, path) else exists f :: f in files && MountOf(r, f).path == path
  {
  }

  lemma NotBeforeSnoc(refs: seq<Ref>, orders: seq<seq<string>>, r: Ref, files: seq<string>, i: nat, path: string)
    requires |refs| == |orders| && i <= |refs|
    ensures NotBefore(refs + [r], orders + [files], i, path) <==> NotBefore(refs, orders, i, path)
    ensures NotBefore(refs + [r], orders + [files], |refs| + 1, path) <==>
            NotBefore(refs, orders, |refs|, path) && !exists f :: f in files && MountOf(r, f).path == path
  {
    forall j | 0 <= j <= |refs|
      ensures Asks(refs + [r], orders + [files], j, path) <==>
              if j < |refs| then Asks(refs, orders, j, path) else exists f :: f in files && MountOf(r, f).path == path
    {
      AsksSnoc(refs, orders, r, files, j, path);
    }
    AsksSnoc(refs, orders, r, files, |refs|, path);
  }

  lemma FirstAtSnoc(refs: seq<Ref>, orders: seq<seq<string>>, r: Ref, files: seq<string>, i: nat, m: Mount)
    requires |refs| == |orders| && i <= |refs|
    ensures FirstAt(refs + [r], orders + [files], i, m) <==>
            if i < |refs| then FirstAt(refs, orders, i, m)
            else m.subPath in files && m == MountOf(r, m.subPath) && NotBefore(refs, orders, |refs|, m.path)
  {
    NotBeforeSnoc(refs, orders, r, files, i, m.path);
  }

  lemma OwnedSnoc(refs: seq<Ref>, orders: seq<seq<string>>, r: Ref, files: seq<string>, m: Mount)
    requires |refs| == |orders|
    ensures Owned(refs + [r], orders + [files], m) <==>
            || Owned(refs, orders, m)
            || (m.subPath in files && m == MountOf(r, m.subPath) && NotBefore(refs, orders, |refs|, m.path))
  {
    forall i | 0 <= i <= |refs|
      ensures FirstAt(refs + [r], orders + [files], i, m) <==>
              if i < |refs| then FirstAt(refs, orders, i, m)
              else m.subPath in files && m == MountOf(r, m.subPath) && NotBefore(refs, orders, |refs|, m.path)
    {
      FirstAtSnoc(refs, orders, r, files, i, m);
    }
    FirstAtSnoc(refs, orders, r, files, |refs|, m);
    if Owned(refs, orders, m) {
      var i :| 0 <= i < |refs| && FirstAt(refs, orders, i, m);
      assert FirstAt(refs + [r], orders + [files], i, m);
    }
  }

  lemma {:induction false} AddedPath(mounts: seq<Mount>, r: Ref, files: seq<string>, p: string)
    ensures HasPath(AddMounts(mounts, r, files), p) <==>
            HasPath(mounts, p) || exists f :: f in files && MountOf(r, f).path == p
    decreases |files|
  {
    if files != [] {
      var init, last := files[..|files| - 1], files[|files| - 1];
      AddedPath(mounts, r, init, p);
      HasPathAppend(AddMounts(mounts, r, init), MountOf(r, last), p);
      assert forall f :: f in files <==> f in init || f == last;
    }
  }

  lemma {:induction false} FirstComeSnoc(
      refs: seq<Ref>, orders: seq<seq<string>>, r: Ref, files: seq<string>, mounts: seq<Mount>)
    requires |refs| == |orders| && FirstComeMounts(refs, orders, mounts) && DistinctKeys(mounts, PathOf)
    requires forall k :: 0 <= k < |files| ==> ValidKey(files[k])
    ensures FirstComeMounts(refs + [r], orders + [files], AddMounts(mounts, r, files))
  {
    forall m ensures m in AddMounts(mounts, r, files) <==> Owned(refs + [r], orders + [files], m) {
      AddMountsMembers(mounts, r, files, m);
      OwnedSnoc(refs, orders, r, files, m);
    }
    forall p
      ensures HasPath(AddMounts(mounts, r, files), p) <==> !NotBefore(refs + [r], orders + [files], |refs| + 1, p)
    {
      AddedPath(mounts, r, files, p);
      NotBeforeSnoc(refs, orders, r, files, 0, p);
    }
  }

  /** Every path belongs to the first reference that asks for it; later ones are skipped without a word. */
  lemma {:induction false} FirstComeFirstMounted(refs: seq<Ref>, orders: seq<seq<string>>)
    requires |refs| == |orders| && ValidKeys(orders)
    ensures FirstComeMounts(refs, orders, MountAll(Pod([], []), refs, orders).mounts)
    decreases |refs|
  {
    if refs != [] {
      var n := |refs| - 1;
      var rs, os, r, files := refs[..n], orders[..n], refs[n], orders[n];
      var before := MountAll(Pod([], []), rs, os).mounts;
      assert refs == rs + [r] && orders == os + [files];
      assert MountAll(Pod([], []), refs, orders).mounts == AddMounts(before, r, files) by {
        MountAllSnoc(Pod([], []), rs, os, r, files);
      }
      assert FirstComeMounts(refs, orders, AddMounts(before, r, files)) by {
        FirstComeFirstMounted(rs, os);
        MountAllOk(Pod([], []), rs, os);
        FirstComeSnoc(rs, os, r, files, before);
      }
    }
  }

  /** Every key of every reference is mounted from that reference's own volume. */
  predicate OwnFiles(mounts: seq<Mount>, refs: seq<Ref>, orders: seq<seq<string>>) {
    |refs| == |orders| &&
    forall i, f :: 0 <= i < |refs| && f in orders[i] ==> MountOf(refs[i], f) in mounts
  }

  /** No reference asks for a path that one of another name has asked for. */
  predicate PathsNotShared(refs: seq<Ref>, orders: seq<seq<string>>) {
    |refs| == |orders| &&
    forall i, j, f :: 0 <= j < i < |refs| && f in orders[i] && Asks(refs, orders, j, MountOf(refs[i], f).path) ==>
      refs[j].name == refs[i].name
  }

  lemma FirstAsker(refs: seq<Ref>, orders: seq<seq<string>>, i: nat, path: string) returns (k: nat)
    requires i < |refs| == |orders| && Asks(refs, orders, i, path)
    ensures k <= i && Asks(refs, orders, k, path) && NotBefore(refs, orders, k, path)
  {
    k := i;
    if j :| 0 <= j < i && Asks(refs, orders, j, path) {
      k := FirstAsker(refs, orders, j, path);
    }
  }

  /** Paths are equal only for the same key, so a mount that another reference made differs in its volume at most. */
  lemma SamePathSameMount(refs: seq<Ref>, orders: seq<seq<string>>, i: nat, f: string, k: nat, g: string)
    requires i < |refs| == |orders| && k < |refs| && f in orders[i] && g in orders[k] && ValidKeys(orders)
    requires MountOf(refs[i], f).path == MountOf(refs[k], g).path
    ensures f == g && (refs[i].name == refs[k].name <==> MountOf(refs[i], f) == MountOf(refs[k], g))
  {
    var x :| 0 <= x < |orders[i]| && orders[i][x] == f;
    var y :| 0 <= y < |orders[k]| && orders[k][y] == g;
    JoinSameFile(Dir(refs[i]), f, Dir(refs[k]), g);
  }

  /**
   On a fresh deployment every key is mounted from its own reference's volume if and only if no earlier
   reference of another name yields the same path.
   */
  lemma {:induction false} OwnFilesIffPathsNotShared(refs: seq<Ref>, orders: seq<seq<string>>)
    requires |refs| == |orders| && ValidKeys(orders)
    ensures OwnFiles(MountAll(Pod([], []), refs, orders).mounts, refs, orders) <==> PathsNotShared(refs, orders)
  {
    FirstComeFirstMounted(refs, orders);
    MountAllOk(Pod([], []), refs, orders);
    var mounts := MountAll(Pod([], []), refs, orders).mounts;
    if PathsNotShared(refs, orders) {
      forall i, f | 0 <= i < |refs| && f in orders[i] ensures MountOf(refs[i], f) in mounts {
        FirstAskerMounts(refs, orders, mounts, i, f);
      }
    }
    if OwnFiles(mounts, refs, orders) {
      forall i, j, f | 0 <= j < i < |refs| && f in orders[i] && Asks(refs, orders, j, MountOf(refs[i], f).path)
        ensures refs[j].name == refs[i].name
      {
        var g :| g in orders[j] && MountOf(refs[j], g).path == MountOf(refs[i], f).path;
        SamePathSameMount(refs, orders, i, f, j, g);
      }
    }
  }

  lemma FirstAskerMounts(refs: seq<Ref>, orders: seq<seq<string>>, mounts: seq<Mount>, i: nat, f: string)
    requires |refs| == |orders| && ValidKeys(orders) && i < |refs| && f in orders[i]
    requires FirstComeMounts(refs, orders, mounts) && PathsNotShared(refs, orders)
    ensures MountOf(refs[i], f) in mounts
  {
    var m := MountOf(refs[i], f);
    assert Asks(refs, orders, i, m.path);
    var k := FirstAsker(refs, orders, i, m.path);
    var g :| g in orders[k] && MountOf(refs[k], g).path == m.path;
    SamePathSameMount(refs, orders, i, f, k, g);
    assert k < i ==> refs[k].name == refs[i].name;
    assert FirstAt(refs, orders, k, m);
  }

  lemma {:induction false} DefaultIsClean()
    ensures Clean("/home/kogito/config") == "/home/kogito/config"
  {
    ThreeNamesAreClean("home", "kogito", "config");
    assert "/" + "home" + "/" + "kogito" + "/" + "config" == "/home/kogito/config";
  }

  lemma {:induction false} DefaultDirectory(f: string)
    requires ValidKey(f)
    ensures JoinPath("/home/kogito/config", f) == "/home/kogito/config/" + f
  {
    var dir := "/home/kogito/config";
    DefaultIsClean();
    PrefixOfClean(dir);
    JoinIsPrefix(dir, f);
    assert dir + "/" + f == "/home/kogito/config/" + f;
  }

  /**
   Where a file of a reference goes: into the reference's own directory, or into the default one when it
   names none; below a clean rooted directory simply under its name.
   */
  lemma FileGoesTo(r: Ref, f: string)
    requires ValidKey(f)
    ensures MountOf(r, f) == Mount(r.name, if r.mountPath == "" then "/home/kogito/config/" + f else Prefix(r.mountPath) + f, f)
    ensures Rooted(r.mountPath) && Clean(r.mountPath) == r.mountPath && r.mountPath != "/" ==>
              MountOf(r, f) == Mount(r.name, r.mountPath + "/" + f, f)
  {
    if r.mountPath == "" {
      DefaultDirectory(f);
    } else {
      JoinIsPrefix(r.mountPath, f);
      if Rooted(r.mountPath) && Clean(r.mountPath) == r.mountPath && r.mountPath != "/" { PrefixOfClean(r.mountPath); }
    }
  }

  /** The file of that name is mounted in the directory, or in the default one when none is named. */
  predicate FileIn(mounts: seq<Mount>, dir: string, f: string) {
    exists k :: 0 <= k < |mounts| && mounts[k].subPath == f &&
                mounts[k].path == if dir == "" then "/home/kogito/config/" + f else Prefix(dir) + f
  }

  /** On a fresh deployment every key of every reference has its file, under its own name, at its place. */
  lemma {:induction false} FileIsThere(refs: seq<Ref>, orders: seq<seq<string>>, i: nat, f: string)
    requires i < |refs| == |orders| && ValidKeys(orders) && f in orders[i]
    ensures FileIn(MountAll(Pod([], []), refs, orders).mounts, refs[i].mountPath, f)
  {
    var mounts, path := MountAll(Pod([], []), refs, orders).mounts, MountOf(refs[i], f).path;
    FirstComeFirstMounted(refs, orders);
    var x :| 0 <= x < |orders[i]| && orders[i][x] == f;
    FileGoesTo(refs[i], f);
    assert Asks(refs, orders, i, path) && !NotBefore(refs, orders, |refs|, path);
    assert HasPath(mounts, path);
    var k :| 0 <= k < |mounts| && mounts[k].path == path;
    var m := mounts[k];
    assert Owned(refs, orders, m);
    var j :| 0 <= j < |refs| && FirstAt(refs, orders, j, m);
    SamePathSameMount(refs, orders, i, f, j, m.subPath);
  }

  // ------------------------------------------------------------------ environment from references

  /** MountAsEnvFrom */
  function AddEnvFrom(list: seq<EnvFrom>, e: EnvFrom): seq<EnvFrom> {
    if e in list then list else list + [e]
  }

  function AddEnvFroms(list: seq<EnvFrom>, es: seq<EnvFrom>): seq<EnvFrom> {
    if es == [] then list else AddEnvFrom(AddEnvFroms(list, es[..|es| - 1]), es[|es| - 1])
  }

  /** The references that occur for the first time, in their order. */
  function KeepFirst(es: seq<EnvFrom>): seq<EnvFrom>
    decreases |es|
  {
    if es == [] then [] else [es[0]] + KeepFirst(Drop(es[1..], es[0]))
  }

  function Drop(es: seq<EnvFrom>, e: EnvFrom): (r: seq<EnvFrom>)
    ensures |r| <= |es|
  {
    if es == [] then [] else (if es[0] == e then [] else [es[0]]) + Drop(es[1..], e)
  }

  lemma {:induction false} DropSnoc(es: seq<EnvFrom>, x: EnvFrom, e: EnvFrom)
    ensures Drop(es + [x], e) == Drop(es, e) + if x == e then [] else [x]
    ensures e !in Drop(es, e) && forall y :: y in Drop(es, e) <==> y in es && y != e
    decreases |es|
  {
    if es == [] {
      assert (es + [x])[1..] == [];
    } else {
      assert (es + [x])[1..] == es[1..] + [x];
      DropSnoc(es[1..], x, e);
    }
  }

  lemma {:induction false} KeepFirstSnoc(es: seq<EnvFrom>, x: EnvFrom)
    ensures KeepFirst(es + [x]) == if x in es then KeepFirst(es) else KeepFirst(es) + [x]
    ensures forall y :: y in KeepFirst(es) <==> y in es
    decreases |es|
  {
    if es == [] {
      assert (es + [x])[1..] == [] && Drop([], x) == [];
    } else {
      assert (es + [x])[1..] == es[1..] + [x] && (es + [x])[0] == es[0];
      var rest := Drop(es[1..], es[0]);
      DropSnoc(es[1..], x, es[0]);
      KeepFirstSnoc(rest, x);
      assert x in es <==> x == es[0] || x in rest;
      if x == es[0] {
        assert Drop((es + [x])[1..], es[0]) == rest;
      } else {
        assert Drop((es + [x])[1..], es[0]) == rest + [x];
      }
    }
  }

  /** Over a fresh container, EnvFrom is the keep-first deduplication of the references, kinds apart. */
  lemma {:induction false} EnvFromKeepsFirst(es: seq<EnvFrom>)
    ensures AddEnvFroms([], es) == KeepFirst(es)
    decreases |es|
  {
    if es != [] {
      var init, last := es[..|es| - 1], es[|es| - 1];
      EnvFromKeepsFirst(init);
      KeepFirstSnoc(init, last);
      assert init + [last] == es;
    }
  }

  // ------------------------------------------------------------------ the handlers

  /** The keys of the ConfigMaps and Secrets that exist in the namespace. */
  type Data = map<(Kind, string), set<string>>

  /** A reference to a missing object is fetched as nil, and its Data is then read. */
  datatype Outcome = Done | FetchError | NilDereference

  predicate Exists(data: Data, r: Ref) {
    (r.kind, r.name) in data
  }

  /** `files` lists the keys of the referenced object. */
  predicate Walks(data: Data, r: Ref, files: seq<string>) {
    Exists(data, r) && Files(files) == data[(r.kind, r.name)]
  }

  predicate AllExist(data: Data, refs: seq<Ref>) {
    forall i :: 0 <= i < |refs| ==> Exists(data, refs[i])
  }

  predicate WalksAll(data: Data, refs: seq<Ref>, orders: seq<seq<string>>) {
    |orders| == |refs| && forall i :: 0 <= i < |refs| ==> Walks(data, refs[i], orders[i])
  }

  function Files(files: seq<string>): set<string> {
    set f | f in files
  }

  lemma FilesSnoc(files: seq<string>, f: string)
    ensures Files(files + [f]) == Files(files) + {f} && (files + [f])[..|files|] == files
  {
  }

  lemma {:induction false} AllFilesThere(r: Ref, files: seq<string>)
    requires forall f :: f in Files(files) ==> ValidKey(f)
    ensures forall f :: f in Files(files) ==>
              Mount(r.name, if r.mountPath == "" then "/home/kogito/config/" + f else Prefix(r.mountPath) + f, f)
              in AddMounts([], r, files)
  {
    assert forall k :: 0 <= k < |files| ==> files[k] in Files(files);
    forall f | f in Files(files)
      ensures Mount(r.name, if r.mountPath == "" then "/home/kogito/config/" + f else Prefix(r.mountPath) + f, f)
              in AddMounts([], r, files)
    {
      FileGoesTo(r, f);
      AddMountsMembers([], r, files, MountOf(r, f));
    }
  }

  class Deployment {
    var volumes: seq<Volume>
    var mounts: seq<Mount>
    var envFrom: seq<EnvFrom>

    constructor ()
      ensures volumes == [] && mounts == [] && envFrom == []
    {
      volumes, mounts, envFrom := [], [], [];
    }

    ghost function Contents(): Pod
      reads this
    {
      Pod(volumes, mounts)
    }

    method AppendVolume(r: Ref)
      modifies this`volumes
      ensures volumes == AddVolume(old(volumes), r)
    {
      for k := 0 to |volumes|
        invariant forall j :: 0 <= j < k ==> volumes[j].name != r.name
      {
        if volumes[k].name == r.name { return; }
      }
      var mode := if r.mode.Some? then r.mode.value else ModeForPropertyFiles;
      volumes := volumes + [Volume(r.name, r.kind, mode, r.optional)];
    }

    method IsVolumeMountExists(path: string) returns (found: bool)
      ensures found <==> HasPath(mounts, path)
    {
      for k := 0 to |mounts|
        invariant forall j :: 0 <= j < k ==> mounts[j].path != path
      {
        if mounts[k].path == path { return true; }
      }
      found := false;
    }

    method AppendMount(r: Ref, fileName: string)
      modifies this`mounts
      ensures mounts == AddMount(old(mounts), MountOf(r, fileName))
    {
      var mountPath := if r.mountPath == "" then DefaultFileMountPath else r.mountPath;
      mountPath := JoinPath(mountPath, fileName);
      var found := IsVolumeMountExists(mountPath);
      if !found {
        mounts := mounts + [Mount(r.name, mountPath, fileName)];
      }
    }

    /** The loop over `cm.Data`: the keys come in whatever order the map yields them. */
    method AppendMounts(r: Ref, keys: set<string>) returns (ghost files: seq<string>)
      modifies this`mounts
      ensures Files(files) == keys
      ensures mounts == AddMounts(old(mounts), r, files)
    {
      files := [];
      var rest := keys;
      while rest != {}
        invariant rest <= keys && Files(files) == keys - rest
        invariant mounts == AddMounts(old(mounts), r, files)
        decreases rest
      {
        var fileName :| fileName in rest;
        AppendMount(r, fileName);
        FilesSnoc(files, fileName);
        rest, files := rest - {fileName}, files + [fileName];
      }
    }

    method MountAsVolume(data: Data, r: Ref) returns (outcome: Outcome, ghost files: seq<string>)
      modifies this`volumes, this`mounts
      ensures outcome.Done? ==> Walks(data, r, files) && Contents() == MountRef(old(Contents()), r, files)
      ensures !outcome.Done? ==> volumes == AddVolume(old(volumes), r) && mounts == old(mounts)
      ensures outcome.NilDereference? ==> !Exists(data, r)
      ensures !Exists(data, r) ==> !outcome.Done?
      // on a fresh deployment: the volume, and where its files are
      ensures old(volumes) == [] ==>
                volumes == [Volume(r.name, r.kind, if r.mode.Some? then r.mode.value else 420, r.optional)]
      ensures outcome.Done? && old(mounts) == [] && (forall f :: f in data[(r.kind, r.name)] ==> ValidKey(f)) ==>
                forall f :: f in data[(r.kind, r.name)] ==>
                  Mount(r.name, if r.mountPath == "" then "/home/kogito/config/" + f else Prefix(r.mountPath) + f, f) in mounts
    {
      files := [];
      AppendVolume(r);
      if * { return FetchError, files; }
      if (r.kind, r.name) !in data { return NilDereference, files; }
      files := AppendMounts(r, data[(r.kind, r.name)]);
      outcome := Done;
      if old(mounts) == [] && forall f :: f in data[(r.kind, r.name)] ==> ValidKey(f) {
        AllFilesThere(r, files);
      }
    }

    /**
     The reference loops of the deployment reconciler.  They get to the end only if every referenced
     object exists; the optional flag of a reference makes no difference.
     */
    method MountReferences(data: Data, refs: seq<Ref>) returns (outcome: Outcome, ghost orders: seq<seq<string>>)
      modifies this`volumes, this`mounts
      ensures outcome.Done? ==>
                WalksAll(data, refs, orders) && Contents() == MountAll(old(Contents()), refs, orders)
      ensures outcome.NilDereference? ==> !AllExist(data, refs)
      ensures !AllExist(data, refs) ==> !outcome.Done?
      ensures outcome.Done? && old(Contents()) == Pod([], []) && ValidKeys(orders) ==>
                forall i, f :: 0 <= i < |refs| && f in orders[i] ==> FileIn(mounts, refs[i].mountPath, f)
    {
      orders := [];
      for i := 0 to |refs|
        invariant WalksAll(data, refs[..i], orders)
        invariant Contents() == MountAll(old(Contents()), refs[..i], orders)
      {
        ghost var files;
        outcome, files := MountAsVolume(data, refs[i]);
        if outcome != Done { return; }
        assert MountAll(old(Contents()), refs[..i + 1], orders + [files]) == Contents() by {
          assert refs[..i + 1] == refs[..i] + [refs[i]];
          MountAllSnoc(old(Contents()), refs[..i], orders, refs[i], files);
        }
        orders := orders + [files];
        assert refs[..i + 1] == refs[..i] + [refs[i]];
      }
      assert refs[..|refs|] == refs;
      outcome := Done;
      if old(Contents()) == Pod([], []) && ValidKeys(orders) {
        forall i, f | 0 <= i < |refs| && f in orders[i] ensures FileIn(mounts, refs[i].mountPath, f) {
          FileIsThere(refs, orders, i, f);
        }
      }
    }

    method MountAsEnvFrom(e: EnvFrom)
      modifies this`envFrom
      ensures envFrom == AddEnvFrom(old(envFrom), e)
    {
      for k := 0 to |envFrom|
        invariant forall j :: 0 <= j < k ==> envFrom[j] != e
      {
        if envFrom[k].kind == e.kind && envFrom[k].name == e.name { return; }
      }
      envFrom := envFrom + [e];
    }

    /** sortVolumes, by exchanges in place. */
    method SortVolumes()
      modifies this`volumes, this`mounts
      ensures Contents() == SortedPod(old(Contents()))
      ensures multiset(volumes) == multiset(old(volumes)) && Sorted(volumes, ByKey(NameOf))
      ensures multiset(mounts) == multiset(old(mounts)) && Sorted(mounts, ByKey(PathOf))
      ensures InOrder(Contents())
    {
      ByKeyOrders(NameOf);
      ByKeyOrders(PathOf);
      volumes := SliceStable(volumes, ByKey(NameOf));
      mounts := SliceStable(mounts, ByKey(PathOf));
      SortedInOrder(Contents());
    }
  }

  lemma {:induction false} MountAllSnoc(pod: Pod, refs: seq<Ref>, orders: seq<seq<string>>, r: Ref, files: seq<string>)
    requires |orders| == |refs|
    ensures MountAll(pod, refs + [r], orders + [files]) == MountRef(MountAll(pod, refs, orders), r, files)
    decreases |refs|
  {
    var rs, os := refs + [r], orders + [files];
    if refs == [] {
      assert rs[1..] == [] && os[1..] == [];
    } else {
      assert rs[1..] == refs[1..] + [r] && os[1..] == orders[1..] + [files];
      MountAllSnoc(MountRef(pod, refs[0], orders[0]), refs[1..], orders[1..], r, files);
    }
  }
}
