/** Several owners reconciling image streams they share (core/infrastructure/imagestream_reconciler.go). */
module SharedStream {
  import opened ImageStreams
  import opened Owners
  import opened Options
  import Delta

  // A reconcile asks for its stream with its own tag and owner reference added, compares that with the
  // streams it owns plus the shared one, and runs the delta processor.  One reconcile is one step here, and
  // a run is any sequence of steps of any set of owners; SharedRace takes the steps apart.

  datatype Stream = Stream(tags: seq<Tag>, owners: seq<OwnerRef>)

  type Store = map<Delta.Key, Stream>

  /** One imageStreamReconciler: its owner, its stream and its tag. */
  datatype Claim = Claim(owner: OwnerRef, key: Delta.Key, tag: Tag)

  /** createRequiredResources: the stream as it is, or a new one, with tag and owner added. */
  function Wanted(store: Store, c: Claim): Stream {
    var base := if c.key in store then store[c.key] else Stream([], []);
    Stream(WithTag(base.tags, c.tag), WithOwner(base.owners, c.owner))
  }

  /** getDeployedResources: every stream this owner owns, and the shared one. */
  function Deployed(store: Store, c: Claim): map<Delta.Key, Stream> {
    map k | k in store && (k == c.key || Owns(store[k].owners, c.owner.uid)) :: store[k]
  }

  function Requested(store: Store, c: Claim): map<Delta.Key, Stream> {
    map[c.key := Wanted(store, c)]
  }

  /** CreateSharedImageStreamComparator: same tags and same owner references. */
  predicate SameShared(deployed: Stream, requested: Stream) {
    deployed.tags == requested.tags && deployed.owners == requested.owners
  }

  /** The server stores a stream as it is sent. */
  function Stored(s: Stream): Stream {
    s
  }

  function Todo(store: Store, c: Claim): set<Delta.Key> {
    Delta.Changed(Deployed(store, c), Requested(store, c), SameShared)
  }

  function Strays(store: Store, c: Claim): set<Delta.Key> {
    set k | k in store && k != c.key && Owns(store[k].owners, c.owner.uid)
  }

  /** The store after a reconcile without errors. */
  function Settle(store: Store, c: Claim): Store {
    (store - Strays(store, c))[c.key := Wanted(store, c)]
  }

  predicate Settled(store: Store, c: Claim) {
    c.key in store && HasName(store[c.key].tags, c.tag.name) && Owns(store[c.key].owners, c.owner.uid)
  }

  /** However the delta processor orders its writes, a complete pass ends in `Settle`. */
  lemma CompletePassIsSettle(store: Store, c: Claim, ks: seq<Delta.Key>)
    requires Delta.NoDuplicates(ks) && Delta.Elements(ks) == Todo(store, c)
    ensures Delta.WriteKeys(store, Requested(store, c), Stored, ks) == Settle(store, c)
  {
    var requested := Requested(store, c);
    Delta.WrittenValues(store, requested, Stored, ks);
    var end := Delta.WriteKeys(store, requested, Stored, ks);
    forall k ensures k in end <==> k in Settle(store, c) {
      assert k in ks <==> k in Delta.Elements(ks);
    }
    forall k | k in end ensures end[k] == Settle(store, c)[k] {
      assert k in ks <==> k in Delta.Elements(ks);
    }
  }

  /** A reconcile deletes streams exactly when its owner also owns streams other than the one it asks for. */
  lemma DeletesNothingIffOwnsNothingElse(store: Store, c: Claim, ks: seq<Delta.Key>)
    requires Delta.NoDuplicates(ks) && Delta.Elements(ks) == Todo(store, c)
    ensures (forall k :: k in store ==> k in Delta.WriteKeys(store, Requested(store, c), Stored, ks))
            <==> forall k :: k in store && Owns(store[k].owners, c.owner.uid) ==> k == c.key
  {
    CompletePassIsSettle(store, c, ks);
    assert forall k :: k in store ==> (k in Settle(store, c) <==> k !in Strays(store, c));
  }

  /**
   So when an owner turns to another stream, the stream it used before is deleted, although a second
   owner still needs it.
   */
  lemma SwitchingOwnerDeletesSharedStream()
    ensures exists store: Store, c: Claim, other: Claim :: other.owner.uid != c.owner.uid &&
              Settled(store, other) && other.key !in Settle(store, c)
  {
    var tag := Tag("latest", None, false);
    var o1, o2 := OwnerRef("1", "a"), OwnerRef("2", "b");
    var old_, new_ := Delta.Key("ImageStream", "old"), Delta.Key("ImageStream", "new");
    var store: Store := map[old_ := Stream([tag], [o1, o2])];
    assert store[old_].owners[0].uid == "1" && store[old_].owners[1].uid == "2" && store[old_].tags[0].name == "latest";
    var c, other := Claim(o1, new_, tag), Claim(o2, old_, tag);
    assert "1" != "2" by { assert "1"[0] != "2"[0]; }
    assert "old" != "new" by { assert "old"[0] != "new"[0]; }
    assert Settled(store, other) && other.key !in Settle(store, c);
  }

  // ------------------------------------------------------------------ runs with fixed claims

  /** Distinct owners, each with one fixed stream and tag. */
  predicate FixedClaims(claims: seq<Claim>) {
    forall i, j :: 0 <= i < j < |claims| ==> claims[i].owner.uid != claims[j].owner.uid
  }

  /** Lists without duplicates, and each owner owns at most the stream it claims. */
  ghost predicate Sound(claims: seq<Claim>, store: Store) {
    && (forall k :: k in store ==> DistinctNames(store[k].tags) && DistinctUids(store[k].owners))
    && (forall k, i :: k in store && 0 <= i < |claims| && Owns(store[k].owners, claims[i].owner.uid) ==>
          k == claims[i].key)
  }

  /** Reconcile, or give up ownership as RemoveSharedImageStreamOwnerShip does. */
  datatype Step = Reconcile(i: nat) | GiveUp(i: nat)

  function GivenUp(store: Store, c: Claim): Store {
    if c.key in store
    then store[c.key := store[c.key].(owners := Released(store[c.key].owners, c.owner.uid))]
    else store
  }

  function Next(claims: seq<Claim>, store: Store, step: Step): Store {
    if step.i >= |claims| then store else
    match step
    case Reconcile(i) => Settle(store, claims[i])
    case GiveUp(i) => GivenUp(store, claims[i])
  }

  function Run(claims: seq<Claim>, store: Store, steps: seq<Step>): Store
    decreases |steps|
  {
    if steps == [] then store else Run(claims, Next(claims, store, steps[0]), steps[1..])
  }

  /** How often owner `i` wrote, and so asked to be requeued. */
  ghost function Writes(claims: seq<Claim>, store: Store, steps: seq<Step>, i: nat): nat
    requires i < |claims|
    decreases |steps|
  {
    if steps == [] then 0 else
    (if steps[0] == Reconcile(i) && Todo(store, claims[i]) != {} then 1 else 0) +
    Writes(claims, Next(claims, store, steps[0]), steps[1..], i)
  }

  function GiveUps(steps: seq<Step>, i: nat): nat {
    if steps == [] then 0 else (if steps[0] == GiveUp(i) then 1 else 0) + GiveUps(steps[1..], i)
  }

  /** `later` keeps every stream, every tag in place, and an owner for whatever had one. */
  predicate Keeps(earlier: Store, later: Store) {
    forall k :: k in earlier ==>
      k in later && earlier[k].tags <= later[k].tags && (earlier[k].owners != [] ==> later[k].owners != [])
  }

  lemma WithOwnerOwns(refs: seq<OwnerRef>, o: OwnerRef, uid: string)
    ensures Owns(WithOwner(refs, o), uid) <==> Owns(refs, uid) || o.uid == uid
  {
    var more := WithOwner(refs, o);
    if Owns(refs, uid) {
      var k :| 0 <= k < |refs| && refs[k].uid == uid;
      assert more[k].uid == uid;
    }
  }

  lemma ReleasedOwns(refs: seq<OwnerRef>, gone: string, uid: string)
    requires DistinctUids(refs)
    ensures DistinctUids(Released(refs, gone)) && (refs != [] ==> Released(refs, gone) != [])
    ensures Owns(Released(refs, gone), uid) <==> Owns(refs, uid) && !(gone == uid && Shared(refs, gone))
  {
    WithoutOwns(refs, gone);
  }

  lemma SettleSound(claims: seq<Claim>, store: Store, i: nat)
    requires FixedClaims(claims) && Sound(claims, store) && i < |claims|
    ensures Sound(claims, Settle(store, claims[i])) && Keeps(store, Settle(store, claims[i]))
    ensures Settled(Settle(store, claims[i]), claims[i])
    ensures forall j :: 0 <= j < |claims| && Settled(store, claims[j]) ==> Settled(Settle(store, claims[i]), claims[j])
  {
    var c := claims[i];
    assert Strays(store, c) == {};
    var after := Settle(store, c);
    var refs := if c.key in store then store[c.key].owners else [];
    var tags := if c.key in store then store[c.key].tags else [];
    forall k, j | k in after && 0 <= j < |claims| && Owns(after[k].owners, claims[j].owner.uid)
      ensures k == claims[j].key
    {
      WithOwnerOwns(refs, c.owner, claims[j].owner.uid);
    }
    forall j | 0 <= j < |claims| && Settled(store, claims[j]) ensures Settled(after, claims[j]) {
      WithOwnerOwns(refs, c.owner, claims[j].owner.uid);
      HasNameAppend(tags, c.tag, claims[j].tag.name);
    }
  }

  lemma GiveUpSound(claims: seq<Claim>, store: Store, i: nat)
    requires FixedClaims(claims) && Sound(claims, store) && i < |claims|
    ensures Sound(claims, GivenUp(store, claims[i])) && Keeps(store, GivenUp(store, claims[i]))
    ensures forall j :: 0 <= j < |claims| && j != i && Settled(store, claims[j]) ==>
              Settled(GivenUp(store, claims[i]), claims[j])
  {
    var c := claims[i];
    var after := GivenUp(store, c);
    if c.key in store {
      var refs := store[c.key].owners;
      ReleasedOwns(refs, c.owner.uid, c.owner.uid);
      forall k, j | k in after && 0 <= j < |claims| && Owns(after[k].owners, claims[j].owner.uid)
        ensures k == claims[j].key
      {
        ReleasedOwns(refs, c.owner.uid, claims[j].owner.uid);
      }
      forall j | 0 <= j < |claims| && j != i && Settled(store, claims[j]) ensures Settled(after, claims[j]) {
        ReleasedOwns(refs, c.owner.uid, claims[j].owner.uid);
      }
    }
  }

  /** A reconcile writes exactly when its tag or its owner reference is missing. */
  lemma WritesIffUnsettled(claims: seq<Claim>, store: Store, i: nat)
    requires Sound(claims, store) && i < |claims|
    ensures Todo(store, claims[i]) != {} <==> !Settled(store, claims[i])
    ensures Settled(store, claims[i]) ==> Settle(store, claims[i]) == store
  {
    var c := claims[i];
    assert forall k :: k in Deployed(store, c) ==> k == c.key;
    if Settled(store, c) {
      assert Wanted(store, c) == store[c.key];
      assert Todo(store, c) == {};
    } else {
      assert c.key in Todo(store, c);
    }
  }

  lemma NextSound(claims: seq<Claim>, store: Store, step: Step)
    requires FixedClaims(claims) && Sound(claims, store)
    ensures Sound(claims, Next(claims, store, step)) && Keeps(store, Next(claims, store, step))
    ensures forall j :: 0 <= j < |claims| && step != GiveUp(j) && Settled(store, claims[j]) ==>
              Settled(Next(claims, store, step), claims[j])
  {
    if step.i < |claims| {
      match step
      case Reconcile(i) => SettleSound(claims, store, i);
      case GiveUp(i) => GiveUpSound(claims, store, i);
    }
  }

  /** Safety over every run: no duplicate tag or owner, nothing deleted, no tag lost, nothing orphaned. */
  lemma {:induction false} RunKeeps(claims: seq<Claim>, store: Store, steps: seq<Step>)
    requires FixedClaims(claims) && Sound(claims, store)
    ensures Sound(claims, Run(claims, store, steps)) && Keeps(store, Run(claims, store, steps))
    decreases |steps|
  {
    if steps != [] {
      NextSound(claims, store, steps[0]);
      RunKeeps(claims, Next(claims, store, steps[0]), steps[1..]);
    }
  }

  lemma {:induction false} SettledStays(claims: seq<Claim>, store: Store, steps: seq<Step>, i: nat)
    requires FixedClaims(claims) && Sound(claims, store) && i < |claims|
    requires Settled(store, claims[i]) && GiveUp(i) !in steps
    ensures Settled(Run(claims, store, steps), claims[i])
    decreases |steps|
  {
    if steps != [] {
      NextSound(claims, store, steps[0]);
      SettledStays(claims, Next(claims, store, steps[0]), steps[1..], i);
    }
  }

  /** An owner that has reconciled and not given up since is settled: reconciling again changes nothing. */
  lemma {:induction false} Converges(claims: seq<Claim>, store: Store, before: seq<Step>, i: nat, after: seq<Step>)
    requires FixedClaims(claims) && Sound(claims, store) && i < |claims|
    requires GiveUp(i) !in after
    ensures var end := Run(claims, store, before + [Reconcile(i)] + after);
            Settled(end, claims[i]) && Todo(end, claims[i]) == {} && Settle(end, claims[i]) == end
    decreases |before|
  {
    var steps := before + [Reconcile(i)] + after;
    if before == [] {
      assert steps[1..] == after;
      SettleSound(claims, store, i);
      SettledStays(claims, Settle(store, claims[i]), after, i);
      RunKeeps(claims, store, steps);
      WritesIffUnsettled(claims, Run(claims, store, steps), i);
    } else {
      assert steps[1..] == before[1..] + [Reconcile(i)] + after;
      NextSound(claims, store, steps[0]);
      Converges(claims, Next(claims, store, steps[0]), before[1..], i, after);
    }
  }

  /** Each owner writes at most once, plus once for every time it gave up its ownership. */
  lemma {:induction false} WritesBounded(claims: seq<Claim>, store: Store, steps: seq<Step>, i: nat)
    requires FixedClaims(claims) && Sound(claims, store) && i < |claims|
    ensures Writes(claims, store, steps, i) <= (if Settled(store, claims[i]) then 0 else 1) + GiveUps(steps, i)
    decreases |steps|
  {
    if steps != [] {
      var next := Next(claims, store, steps[0]);
      NextSound(claims, store, steps[0]);
      WritesIffUnsettled(claims, store, i);
      if steps[0] == Reconcile(i) { SettleSound(claims, store, i); }
      WritesBounded(claims, next, steps[1..], i);
    }
  }

  /** Once everyone has reconciled and no one gives up, every further schedule leaves the store as it is. */
  lemma {:induction false} Quiescent(claims: seq<Claim>, store: Store, steps: seq<Step>)
    requires FixedClaims(claims) && Sound(claims, store)
    requires forall i :: 0 <= i < |claims| ==> Settled(store, claims[i])
    requires forall s :: s in steps ==> s.Reconcile?
    ensures Run(claims, store, steps) == store
    decreases |steps|
  {
    if steps != [] {
      assert steps[0] in steps && forall s :: s in steps[1..] ==> s in steps;
      if steps[0].i < |claims| { WritesIffUnsettled(claims, store, steps[0].i); }
      Quiescent(claims, store, steps[1..]);
    }
  }

  // ------------------------------------------------------------------ one reconcile

  /**
   imageStreamReconciler.Reconcile, writing through the delta processor.  Without an error the store
   is `Settle` of the old one, and a requeue is asked for exactly when something was written; an error
   leaves a part of the delta written.
   */
  method ReconcileStream(cluster: Delta.Cluster<Stream>, c: Claim)
    returns (requeue: bool, ok: bool, ghost written: seq<Delta.Key>)
    requires cluster.served == Stored
    modifies cluster
    ensures ok ==> cluster.store == Settle(old(cluster.store), c)
    ensures ok ==> (requeue <==> Todo(old(cluster.store), c) != {})
    ensures Delta.NoDuplicates(written) && Delta.Elements(written) <= Todo(old(cluster.store), c)
    ensures cluster.store == Delta.WriteKeys(old(cluster.store), Requested(old(cluster.store), c), Stored, written)
  {
    var store := cluster.store;
    var stream := if c.key in store then store[c.key] else Stream([], []);
    var tagExists := FindTag(stream.tags, c.tag.name);
    if !tagExists {
      stream := stream.(tags := stream.tags + [c.tag]);
    }
    var resource := new Resource(stream.owners);
    ok := AddOwnerReference(c.owner, [resource]);
    assert resource in [resource];
    if !ok { return false, false, []; }
    stream := stream.(owners := resource.owners);
    assert stream == Wanted(store, c);
    requeue, ok, written := cluster.ProcessDelta(Deployed(store, c), map[c.key := stream], SameShared);
    if ok { CompletePassIsSettle(store, c, written); }
  }
}
