/**
 Owner references shared between resources (core/framework/owner.go): who owns an object, adding an
 owner, and giving an object up without leaving it ownerless.
 */
module Owners {
  datatype OwnerRef = OwnerRef(uid: string, name: string)

  predicate Owns(refs: seq<OwnerRef>, uid: string) {
    exists k :: 0 <= k < |refs| && refs[k].uid == uid
  }

  predicate DistinctUids(refs: seq<OwnerRef>) {
    forall j, k :: 0 <= j < k < |refs| ==> refs[j].uid != refs[k].uid
  }

  /** AddOwnerReference on one resource. */
  function WithOwner(refs: seq<OwnerRef>, o: OwnerRef): (r: seq<OwnerRef>)
    ensures refs <= r && Owns(r, o.uid) && (r == refs || r == refs + [o])
    ensures DistinctUids(refs) ==> DistinctUids(r)
    ensures Owns(refs, o.uid) <==> r == refs
  {
    if Owns(refs, o.uid) then refs
    else
      assert (refs + [o])[|refs|].uid == o.uid;
      refs + [o]
  }

  /** RemoveOwnerReference on one resource: the first reference with this UID goes. */
  function Without(refs: seq<OwnerRef>, uid: string): (r: seq<OwnerRef>)
    ensures Owns(refs, uid) ==> |r| == |refs| - 1
    ensures !Owns(refs, uid) ==> r == refs
  {
    if refs == [] then []
    else if refs[0].uid == uid then refs[1..]
    else
      assert Owns(refs, uid) <==> Owns(refs[1..], uid) by {
        if Owns(refs, uid) {
          var k :| 0 <= k < |refs| && refs[k].uid == uid;
          assert refs[1..][k - 1].uid == uid;
        }
      }
      [refs[0]] + Without(refs[1..], uid)
  }

  predicate Shared(refs: seq<OwnerRef>, uid: string) {
    |refs| > 1 && Owns(refs, uid)
  }

  /** RemoveSharedOwnerReference on one resource. */
  function Released(refs: seq<OwnerRef>, uid: string): seq<OwnerRef> {
    if Shared(refs, uid) then Without(refs, uid) else refs
  }

  lemma {:induction false} WithoutAt(refs: seq<OwnerRef>, uid: string, k: nat)
    requires k < |refs| && refs[k].uid == uid
    requires forall j :: 0 <= j < k ==> refs[j].uid != uid
    ensures Without(refs, uid) == refs[..k] + refs[k + 1..]
  {
    if k > 0 {
      var rest := refs[1..];
      WithoutAt(rest, uid, k - 1);
      calc {
        Without(refs, uid);
        [refs[0]] + Without(rest, uid);
        [refs[0]] + (rest[..k - 1] + rest[k..]);
        ([refs[0]] + rest[..k - 1]) + rest[k..];
        { assert [refs[0]] + rest[..k - 1] == refs[..k]; }
        refs[..k] + rest[k..];
        { assert rest[k..] == refs[k + 1..]; }
        refs[..k] + refs[k + 1..];
      }
    }
  }

  lemma {:induction false} WithoutDistinct(refs: seq<OwnerRef>, uid: string)
    requires DistinctUids(refs)
    ensures DistinctUids(Without(refs, uid))
  {
    if Owns(refs, uid) {
      var k :| 0 <= k < |refs| && refs[k].uid == uid;
      WithoutAt(refs, uid, k);
    }
  }

  lemma {:induction false} WithoutMember(refs: seq<OwnerRef>, uid: string, o: OwnerRef)
    requires DistinctUids(refs)
    ensures o in Without(refs, uid) <==> o in refs && o.uid != uid
  {
    if refs != [] {
      assert o in refs <==> o == refs[0] || o in refs[1..];
      if refs[0].uid != uid {
        WithoutMember(refs[1..], uid, o);
      }
    }
  }

  /** Removal takes away one UID and keeps every other reference. */
  lemma {:induction false} WithoutOwns(refs: seq<OwnerRef>, uid: string)
    requires DistinctUids(refs)
    ensures DistinctUids(Without(refs, uid)) && !Owns(Without(refs, uid), uid)
    ensures forall o :: o in Without(refs, uid) <==> o in refs && o.uid != uid
  {
    WithoutDistinct(refs, uid);
    forall o ensures o in Without(refs, uid) <==> o in refs && o.uid != uid {
      WithoutMember(refs, uid, o);
    }
    var rest := Without(refs, uid);
    assert forall k :: 0 <= k < |rest| ==> rest[k] in rest;
  }

  /** Adding an absent owner and removing it again gives back the list. */
  lemma AddThenRemove(refs: seq<OwnerRef>, o: OwnerRef)
    requires !Owns(refs, o.uid)
    ensures Without(WithOwner(refs, o), o.uid) == refs
  {
    var more := refs + [o];
    WithoutAt(more, o.uid, |refs|);
    assert more[..|refs|] + more[|refs| + 1..] == refs;
  }

  // ------------------------------------------------------------------ runs on one resource

  datatype Change = Add(owner: OwnerRef) | Release(uid: string)

  function Apply(refs: seq<OwnerRef>, c: Change): seq<OwnerRef> {
    match c
    case Add(o) => WithOwner(refs, o)
    case Release(uid) => Released(refs, uid)
  }

  function Run(refs: seq<OwnerRef>, changes: seq<Change>): seq<OwnerRef>
    decreases |changes|
  {
    if changes == [] then refs else Run(Apply(refs, changes[0]), changes[1..])
  }

  /** Under any additions and releases UIDs stay distinct, and what is owned never becomes ownerless. */
  lemma {:induction false} NeverOrphaned(refs: seq<OwnerRef>, changes: seq<Change>)
    requires DistinctUids(refs)
    ensures DistinctUids(Run(refs, changes))
    ensures refs != [] ==> Run(refs, changes) != []
    ensures forall o :: o in Run(refs, changes) ==> o in refs || Add(o) in changes
    decreases |changes|
  {
    if changes != [] {
      var next := Apply(refs, changes[0]);
      match changes[0] {
        case Add(o) =>
        case Release(uid) => WithoutOwns(refs, uid);
      }
      assert forall o :: o in next ==> o in refs || Add(o) == changes[0];
      NeverOrphaned(next, changes[1..]);
    }
  }

  /** Who is left after a run: an owner that was added and not released since is still there. */
  lemma {:induction false} UnreleasedOwnerStays(refs: seq<OwnerRef>, uid: string, changes: seq<Change>)
    requires DistinctUids(refs) && Owns(refs, uid) && Release(uid) !in changes
    ensures Owns(Run(refs, changes), uid)
    decreases |changes|
  {
    if changes != [] {
      var next := Apply(refs, changes[0]);
      var k :| 0 <= k < |refs| && refs[k].uid == uid;
      assert refs[k] in next by {
        match changes[0] {
          case Add(o) => assert next[k] == refs[k];
          case Release(u) => WithoutOwns(refs, u);
        }
      }
      NeverOrphaned(refs, [changes[0]]);
      UnreleasedOwnerStays(next, uid, changes[1..]);
    }
  }

  // ------------------------------------------------------------------ several resources at once

  /** RemoveSharedOwnerReference on a list of resources: it returns from inside the first removal. */
  function ReleaseFirst(lists: seq<seq<OwnerRef>>, uid: string): (r: (seq<seq<OwnerRef>>, bool))
    ensures |r.0| == |lists|
  {
    if lists == [] then ([], false)
    else if Shared(lists[0], uid) then ([Without(lists[0], uid)] + lists[1..], true)
    else
      var rest := ReleaseFirst(lists[1..], uid);
      ([lists[0]] + rest.0, rest.1)
  }

  lemma {:induction false} ReleaseFirstNone(lists: seq<seq<OwnerRef>>, uid: string)
    requires forall i :: 0 <= i < |lists| ==> !Shared(lists[i], uid)
    ensures ReleaseFirst(lists, uid) == (lists, false)
  {
    if lists != [] {
      ReleaseFirstNone(lists[1..], uid);
      assert [lists[0]] + lists[1..] == lists;
    }
  }

  lemma {:induction false} ReleaseFirstAt(lists: seq<seq<OwnerRef>>, uid: string, k: nat)
    requires k < |lists| && Shared(lists[k], uid)
    requires forall j :: 0 <= j < k ==> !Shared(lists[j], uid)
    ensures ReleaseFirst(lists, uid) == (lists[k := Without(lists[k], uid)], true)
  {
    var released := Without(lists[k], uid);
    if k > 0 {
      ReleaseFirstAt(lists[1..], uid, k - 1);
      assert [lists[0]] + lists[1..][k - 1 := released] == lists[k := released];
    } else {
      assert [released] + lists[1..] == lists[0 := released];
    }
  }

  lemma {:induction false} FirstShared(lists: seq<seq<OwnerRef>>, uid: string, i: nat) returns (k: nat)
    requires i < |lists| && Shared(lists[i], uid)
    ensures k <= i && Shared(lists[k], uid) && forall j :: 0 <= j < k ==> !Shared(lists[j], uid)
  {
    k := i;
    if j :| 0 <= j < i && Shared(lists[j], uid) {
      k := FirstShared(lists, uid, j);
    }
  }

  /** It changes at most one resource, the first that qualifies, and says true exactly when it changed one. */
  lemma {:induction false} ReleaseFirstChangesOne(lists: seq<seq<OwnerRef>>, uid: string)
    ensures var (after, removed) := ReleaseFirst(lists, uid);
            && (removed <==> exists i :: 0 <= i < |lists| && Shared(lists[i], uid))
            && (removed <==> after != lists)
            && (removed ==> exists i :: 0 <= i < |lists| && Shared(lists[i], uid) &&
                                        (forall j :: 0 <= j < i ==> !Shared(lists[j], uid)) &&
                                        after == lists[i := Without(lists[i], uid)])
            && forall i :: 0 <= i < |lists| && lists[i] != [] ==> after[i] != []
  {
    if i :| 0 <= i < |lists| && Shared(lists[i], uid) {
      var k := FirstShared(lists, uid, i);
      ReleaseFirstAt(lists, uid, k);
      assert lists[k := Without(lists[k], uid)][k] != lists[k];
    } else {
      ReleaseFirstNone(lists, uid);
    }
  }

  /**
   The comment on RemoveSharedOwnerReference promises the owner is removed from the given resources
   that have several owners.  That holds exactly when at most one of them qualifies.
   */
  lemma ReleasesAllIffAtMostOneShared(lists: seq<seq<OwnerRef>>, uid: string)
    requires forall i :: 0 <= i < |lists| ==> DistinctUids(lists[i])
    ensures (forall i :: 0 <= i < |lists| ==> !Shared(ReleaseFirst(lists, uid).0[i], uid))
            <==> forall i, j :: 0 <= i < j < |lists| ==> !Shared(lists[i], uid) || !Shared(lists[j], uid)
  {
    ReleaseFirstChangesOne(lists, uid);
    var (after, removed) := ReleaseFirst(lists, uid);
    if removed {
      var i :| 0 <= i < |lists| && Shared(lists[i], uid) &&
               (forall j :: 0 <= j < i ==> !Shared(lists[j], uid)) &&
               after == lists[i := Without(lists[i], uid)];
      WithoutOwns(lists[i], uid);
      if j :| 0 <= j < |lists| && j != i && Shared(lists[j], uid) {
        assert Shared(after[j], uid);
        assert i < j;
      } else {
        assert forall j :: 0 <= j < |lists| && j != i ==> !Shared(lists[j], uid);
      }
    }
  }

  /** The owner is gone from every resource that has others. */
  predicate NoneShared(lists: seq<seq<OwnerRef>>, uid: string) {
    forall i :: 0 <= i < |lists| ==> !Shared(lists[i], uid)
  }

  /** How many resources would still give up this owner. */
  function SharedCount(lists: seq<seq<OwnerRef>>, uid: string): nat {
    if lists == [] then 0 else (if Shared(lists[0], uid) then 1 else 0) + SharedCount(lists[1..], uid)
  }

  lemma {:induction false} SharedCountZero(lists: seq<seq<OwnerRef>>, uid: string)
    ensures SharedCount(lists, uid) == 0 <==> NoneShared(lists, uid)
  {
    if lists != [] {
      SharedCountZero(lists[1..], uid);
      assert forall i :: 0 < i < |lists| ==> lists[i] == lists[1..][i - 1];
    }
  }

  ghost predicate AllDistinct(lists: seq<seq<OwnerRef>>) {
    forall i :: 0 <= i < |lists| ==> DistinctUids(lists[i])
  }

  lemma {:induction false} ReleaseFirstCounts(lists: seq<seq<OwnerRef>>, uid: string)
    requires AllDistinct(lists)
    ensures var (after, removed) := ReleaseFirst(lists, uid);
            && AllDistinct(after) && (removed <==> SharedCount(lists, uid) > 0)
            && SharedCount(after, uid) == SharedCount(lists, uid) - if removed then 1 else 0
  {
    if lists != [] {
      var (after, removed) := ReleaseFirst(lists, uid);
      if Shared(lists[0], uid) {
        WithoutOwns(lists[0], uid);
        assert after[1..] == lists[1..];
      } else {
        ReleaseFirstCounts(lists[1..], uid);
        assert after[1..] == ReleaseFirst(lists[1..], uid).0;
      }
    }
  }

  /** The same call, made `n` times. */
  function ReleaseTimes(lists: seq<seq<OwnerRef>>, uid: string, n: nat): (r: seq<seq<OwnerRef>>)
    ensures |r| == |lists|
    decreases n
  {
    if n == 0 then lists else ReleaseTimes(ReleaseFirst(lists, uid).0, uid, n - 1)
  }

  /** The owner is gone from every shared resource after as many calls as there are such resources, and no sooner. */
  lemma {:induction false} CallsNeeded(lists: seq<seq<OwnerRef>>, uid: string, n: nat)
    requires AllDistinct(lists)
    ensures NoneShared(ReleaseTimes(lists, uid, n), uid) <==> n >= SharedCount(lists, uid)
    decreases n
  {
    ReleaseFirstCounts(lists, uid);
    if n == 0 {
      SharedCountZero(lists, uid);
    } else {
      CallsNeeded(ReleaseFirst(lists, uid).0, uid, n - 1);
    }
  }

  // ------------------------------------------------------------------ runs on several resources

  /** An owner is added to some of the resources, or released by one call on all of them. */
  datatype Call = AddTo(owner: OwnerRef, which: set<nat>) | ReleaseOne(uid: string)

  function ApplyAll(lists: seq<seq<OwnerRef>>, c: Call): (r: seq<seq<OwnerRef>>)
    ensures |r| == |lists|
  {
    match c
    case AddTo(o, which) =>
      seq(|lists|, i requires 0 <= i < |lists| => if i in which then WithOwner(lists[i], o) else lists[i])
    case ReleaseOne(uid) => ReleaseFirst(lists, uid).0
  }

  function RunAll(lists: seq<seq<OwnerRef>>, calls: seq<Call>): (r: seq<seq<OwnerRef>>)
    ensures |r| == |lists|
    decreases |calls|
  {
    if calls == [] then lists else RunAll(ApplyAll(lists, calls[0]), calls[1..])
  }

  /** What a run over all resources does to the i-th is a run on that one: its additions, and some of the releases. */
  predicate Projects(calls: seq<Call>, changes: seq<Change>, i: nat) {
    forall c :: c in changes ==>
      match c
      case Add(o) => exists k :: 0 <= k < |calls| && calls[k].AddTo? && calls[k].owner == o && i in calls[k].which
      case Release(uid) => ReleaseOne(uid) in calls
  }

  lemma ApplyAllAt(lists: seq<seq<OwnerRef>>, c: Call, i: nat) returns (changes: seq<Change>)
    requires i < |lists|
    ensures Projects([c], changes, i) && Run(lists[i], changes) == ApplyAll(lists, c)[i]
  {
    changes := [];
    match c
    case AddTo(o, which) =>
      if i in which {
        changes := [Add(o)];
        assert changes[1..] == [] && Run(WithOwner(lists[i], o), []) == WithOwner(lists[i], o);
        assert [c][0] == c;
      }
    case ReleaseOne(uid) =>
      ReleaseFirstChangesOne(lists, uid);
      var after := ReleaseFirst(lists, uid).0;
      if after[i] != lists[i] {
        changes := [Release(uid)];
        assert Shared(lists[i], uid) && after[i] == Without(lists[i], uid);
        assert changes[1..] == [] && Run(after[i], []) == after[i];
      }
  }

  lemma {:induction false} RunConcat(refs: seq<OwnerRef>, a: seq<Change>, b: seq<Change>)
    ensures Run(refs, a + b) == Run(Run(refs, a), b)
    decreases |a|
  {
    if a == [] {
      assert a + b == b;
    } else {
      assert (a + b)[1..] == a[1..] + b;
      RunConcat(Apply(refs, a[0]), a[1..], b);
    }
  }

  lemma {:induction false} RunAllAt(lists: seq<seq<OwnerRef>>, calls: seq<Call>, i: nat) returns (changes: seq<Change>)
    requires i < |lists|
    ensures Projects(calls, changes, i) && Run(lists[i], changes) == RunAll(lists, calls)[i]
    decreases |calls|
  {
    changes := [];
    if calls != [] {
      var first := ApplyAllAt(lists, calls[0], i);
      var rest := RunAllAt(ApplyAll(lists, calls[0]), calls[1..], i);
      changes := first + rest;
      RunConcat(lists[i], first, rest);
    }
  }

  /**
   Under any calls on any resources, every list keeps distinct UIDs, an owned resource never becomes
   ownerless, and a resource has no owner that it did not have and that was not added to it.
   */
  lemma ResourcesNeverOrphaned(lists: seq<seq<OwnerRef>>, calls: seq<Call>, i: nat)
    requires i < |lists| && DistinctUids(lists[i])
    ensures DistinctUids(RunAll(lists, calls)[i])
    ensures lists[i] != [] ==> RunAll(lists, calls)[i] != []
    ensures forall o :: o in RunAll(lists, calls)[i] ==>
              o in lists[i] ||
              exists k :: 0 <= k < |calls| && calls[k].AddTo? && calls[k].owner == o && i in calls[k].which
  {
    var changes := RunAllAt(lists, calls, i);
    NeverOrphaned(lists[i], changes);
  }

  /** An owner that no call releases is still there. */
  lemma ResourcesKeepUnreleased(lists: seq<seq<OwnerRef>>, calls: seq<Call>, i: nat, uid: string)
    requires i < |lists| && DistinctUids(lists[i]) && Owns(lists[i], uid) && ReleaseOne(uid) !in calls
    ensures Owns(RunAll(lists, calls)[i], uid)
  {
    var changes := RunAllAt(lists, calls, i);
    UnreleasedOwnerStays(lists[i], uid, changes);
  }

  // ------------------------------------------------------------------ the loops over live objects

  /** A Kubernetes object, as far as its owner references go. */
  class Resource {
    var owners: seq<OwnerRef>

    constructor (owners: seq<OwnerRef>)
      ensures this.owners == owners
    {
      this.owners := owners;
    }
  }

  method IsOwner(resource: Resource, uid: string) returns (found: bool)
    ensures found <==> Owns(resource.owners, uid)
  {
    for k := 0 to |resource.owners|
      invariant forall j :: 0 <= j < k ==> resource.owners[j].uid != uid
    {
      if resource.owners[k].uid == uid { return true; }
    }
    found := false;
  }

  /**
   The same object may be passed more than once: adding is idempotent.  The owner's kind is looked up
   first; when that fails, nothing has changed.
   */
  method AddOwnerReference(owner: OwnerRef, resources: seq<Resource>) returns (ok: bool)
    modifies resources
    ensures ok ==> forall r :: r in resources ==> r.owners == WithOwner(old(r.owners), owner)
    ensures !ok ==> forall r :: r in resources ==> r.owners == old(r.owners)
  {
    if * { return false; }
    for i := 0 to |resources|
      invariant forall r :: r in resources[..i] ==> r.owners == WithOwner(old(r.owners), owner)
      invariant forall r :: r in resources && r !in resources[..i] ==> r.owners == old(r.owners)
    {
      var res := resources[i];
      var owned := IsOwner(res, owner.uid);
      if !owned {
        res.owners := res.owners + [owner];
      }
      assert resources[..i + 1] == resources[..i] + [res];
    }
    assert resources[..|resources|] == resources;
    ok := true;
  }

  /** `owners` of the i-th resource, for every i. */
  ghost function Lists(resources: seq<Resource>): seq<seq<OwnerRef>>
    reads resources
  {
    seq(|resources|, i requires 0 <= i < |resources| reads resources => resources[i].owners)
  }

  predicate AllDifferent(resources: seq<Resource>) {
    forall i, j :: 0 <= i < j < |resources| ==> resources[i] != resources[j]
  }

  /** At most one object changes, even when one is passed twice; on different objects this is ReleaseFirst. */
  method RemoveSharedOwnerReference(uid: string, resources: seq<Resource>) returns (removed: bool)
    modifies resources
    ensures removed <==> exists i :: 0 <= i < |resources| && Shared(old(resources[i].owners), uid)
    ensures removed ==> exists i :: 0 <= i < |resources| && Shared(old(resources[i].owners), uid) &&
                          resources[i].owners == Without(old(resources[i].owners), uid) &&
                          forall r :: r in resources && r != resources[i] ==> r.owners == old(r.owners)
    ensures !removed ==> forall r :: r in resources ==> r.owners == old(r.owners)
    ensures AllDifferent(resources) ==> (Lists(resources), removed) == ReleaseFirst(old(Lists(resources)), uid)
  {
    ghost var lists := Lists(resources);
    ReleaseFirstChangesOne(lists, uid);
    for i := 0 to |resources|
      invariant forall r :: r in resources ==> r.owners == old(r.owners)
      invariant Lists(resources) == lists
      invariant forall j :: 0 <= j < i ==> !Shared(lists[j], uid)
    {
      var refs := resources[i].owners;
      assert refs == lists[i];
      if |refs| > 1 {
        for k := 0 to |refs|
          invariant forall r :: r in resources ==> r.owners == old(r.owners)
          invariant Lists(resources) == lists
          invariant forall j :: 0 <= j < k ==> refs[j].uid != uid
        {
          if refs[k].uid == uid {
            WithoutAt(refs, uid, k);
            assert Shared(lists[i], uid);
            resources[i].owners := refs[..k] + refs[k + 1..];
            assert AllDifferent(resources) ==> Lists(resources) == lists[i := Without(refs, uid)];
            return true;
          }
        }
      }
    }
    assert forall i :: 0 <= i < |resources| ==> lists[i] == resources[i].owners;
    removed := false;
  }
}
