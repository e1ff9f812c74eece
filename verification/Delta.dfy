/**
 The delta processor (core/infrastructure/delta_processor.go): compare what is deployed with what is
 requested, by name and per kind, and create, update and delete what differs.  Any write may fail, and
 a failed write ends the pass.
 */
module Delta {
  datatype Key = Key(kind: string, name: string)

  /** MapComparator.Compare: added, or updated because the comparator says so, or removed. */
  function Changed<K, O>(deployed: map<K, O>, requested: map<K, O>, equal: (O, O) -> bool): set<K> {
    (set k | k in requested && (k !in deployed || !equal(deployed[k], requested[k]))) +
    (set k | k in deployed && k !in requested)
  }

  /** One accepted write; `served` is what the API server stores for a requested object. */
  function WriteKey<K, O>(store: map<K, O>, requested: map<K, O>, served: O -> O, k: K): map<K, O> {
    if k in requested then store[k := served(requested[k])] else store - {k}
  }

  function WriteKeys<K, O>(store: map<K, O>, requested: map<K, O>, served: O -> O, ks: seq<K>): map<K, O>
    decreases |ks|
  {
    if ks == [] then store
    else WriteKeys(WriteKey(store, requested, served, ks[0]), requested, served, ks[1..])
  }

  predicate NoDuplicates<K(==)>(ks: seq<K>) {
    forall i, j :: 0 <= i < j < |ks| ==> ks[i] != ks[j]
  }

  function Elements<K>(ks: seq<K>): set<K> {
    set k | k in ks
  }

  /** The comparator tells no difference between a requested object and what the server made of it. */
  ghost predicate Absorbs<K, O>(requested: map<K, O>, served: O -> O, equal: (O, O) -> bool) {
    forall k :: k in requested ==> equal(served(requested[k]), requested[k])
  }

  /** A pass got as far as writing `ks`: distinct keys, all of them in the delta. */
  predicate Partial<K(==), O>(store: map<K, O>, requested: map<K, O>, equal: (O, O) -> bool, ks: seq<K>) {
    NoDuplicates(ks) && Elements(ks) <= Changed(store, requested, equal)
  }

  /** The keys that stay in the delta even after they are written. */
  function Restless<K, O>(requested: map<K, O>, served: O -> O, equal: (O, O) -> bool): set<K> {
    set k | k in requested && !equal(served(requested[k]), requested[k])
  }

  lemma WriteKeyChanged<K, O>(store: map<K, O>, requested: map<K, O>, served: O -> O, equal: (O, O) -> bool, k: K)
    requires k in Changed(store, requested, equal)
    ensures Changed(WriteKey(store, requested, served, k), requested, equal) ==
            if k in Restless(requested, served, equal) then Changed(store, requested, equal)
            else Changed(store, requested, equal) - {k}
  {
  }

  /** What a pass, complete or not, leaves to do: what it did not write, and what no write settles. */
  lemma {:induction false} PassLeaves<K, O>(
      store: map<K, O>, requested: map<K, O>, served: O -> O, equal: (O, O) -> bool, ks: seq<K>)
    requires Partial(store, requested, equal, ks)
    ensures Changed(WriteKeys(store, requested, served, ks), requested, equal) ==
            Changed(store, requested, equal) - (Elements(ks) - Restless(requested, served, equal))
    decreases |ks|
  {
    if ks != [] {
      var next := WriteKey(store, requested, served, ks[0]);
      WriteKeyChanged(store, requested, served, equal, ks[0]);
      assert Elements(ks) == {ks[0]} + Elements(ks[1..]);
      assert ks[0] !in ks[1..];
      PassLeaves(next, requested, served, equal, ks[1..]);
    }
  }

  lemma {:induction false} ElementsCount<K>(ks: seq<K>)
    requires NoDuplicates(ks)
    ensures |Elements(ks)| == |ks|
    decreases |ks|
  {
    if ks != [] {
      assert Elements(ks) == Elements(ks[1..]) + {ks[0]};
      assert ks[0] !in ks[1..];
      ElementsCount(ks[1..]);
    }
  }

  /** After a complete pass nothing is left to do exactly when the comparator absorbs the server's changes. */
  lemma CompletePassSettles<K, O>(
      store: map<K, O>, requested: map<K, O>, served: O -> O, equal: (O, O) -> bool, ks: seq<K>)
    requires NoDuplicates(ks) && Elements(ks) == Changed(store, requested, equal)
    ensures var end := WriteKeys(store, requested, served, ks);
            && Changed(end, requested, equal) == Changed(store, requested, equal) * Restless(requested, served, equal)
            && (forall k :: k in end <==> k in requested)
            && (forall k :: k in ks && k in requested ==> end[k] == served(requested[k]))
            && (forall k :: k in requested && k !in ks ==> k in store && end[k] == store[k])
  {
    PassLeaves(store, requested, served, equal, ks);
    WrittenValues(store, requested, served, ks);
    var end := WriteKeys(store, requested, served, ks);
    forall k ensures k in end <==> k in requested {
      assert k in end <==> if k in ks then k in requested else k in store;
      assert k in ks <==> k in Elements(ks);
      assert k in Changed(store, requested, equal) || (k in store <==> k in requested);
    }
  }

  lemma {:induction false} WrittenValues<K, O>(store: map<K, O>, requested: map<K, O>, served: O -> O, ks: seq<K>)
    ensures var end := WriteKeys(store, requested, served, ks);
            forall k :: (k in end <==> if k in ks then k in requested else k in store) &&
                        (k in end ==> end[k] == if k in ks then served(requested[k]) else store[k])
    decreases |ks|
  {
    if ks != [] {
      WrittenValues(WriteKey(store, requested, served, ks[0]), requested, served, ks[1..]);
      assert forall k :: k in ks <==> k == ks[0] || k in ks[1..];
    }
  }

  // ------------------------------------------------------------------ many passes

  /** Passes over one fixed request, each starting from what the one before left behind. */
  ghost predicate Passes<K, O>(
      store: map<K, O>, requested: map<K, O>, served: O -> O, equal: (O, O) -> bool, passes: seq<seq<K>>)
    decreases |passes|
  {
    passes == [] ||
    (Partial(store, requested, equal, passes[0]) &&
     Passes(WriteKeys(store, requested, served, passes[0]), requested, served, equal, passes[1..]))
  }

  function AfterPasses<K, O>(store: map<K, O>, requested: map<K, O>, served: O -> O, passes: seq<seq<K>>): map<K, O>
    decreases |passes|
  {
    if passes == [] then store
    else AfterPasses(WriteKeys(store, requested, served, passes[0]), requested, served, passes[1..])
  }

  function Writes<K>(passes: seq<seq<K>>): nat {
    if passes == [] then 0 else |passes[0]| + Writes(passes[1..])
  }

  /**
   Conservation: over any sequence of partly failed passes, each accepted write takes exactly one
   entry out of the delta, no entry enters it, and so there are never more writes than first entries.
   */
  lemma {:induction false} WritesAreConserved<K, O>(
      store: map<K, O>, requested: map<K, O>, served: O -> O, equal: (O, O) -> bool, passes: seq<seq<K>>)
    requires Absorbs(requested, served, equal)
    requires Passes(store, requested, served, equal, passes)
    ensures var end := AfterPasses(store, requested, served, passes);
            && Changed(end, requested, equal) <= Changed(store, requested, equal)
            && |Changed(end, requested, equal)| + Writes(passes) == |Changed(store, requested, equal)|
    decreases |passes|
  {
    if passes != [] {
      var next := WriteKeys(store, requested, served, passes[0]);
      PassLeaves(store, requested, served, equal, passes[0]);
      ElementsCount(passes[0]);
      assert Restless(requested, served, equal) == {};
      assert Changed(next, requested, equal) == Changed(store, requested, equal) - Elements(passes[0]);
      WritesAreConserved(next, requested, served, equal, passes[1..]);
    }
  }

  /** A comparator that does not absorb the server's changes makes every pass write again, for ever. */
  lemma NeverSettles<K, O>(
      store: map<K, O>, requested: map<K, O>, served: O -> O, equal: (O, O) -> bool, ks: seq<K>, k: K)
    requires Partial(store, requested, equal, ks)
    requires k in ks && k in requested && !equal(served(requested[k]), requested[k])
    ensures k in Changed(WriteKeys(store, requested, served, ks), requested, equal)
  {
    PassLeaves(store, requested, served, equal, ks);
  }

  // ------------------------------------------------------------------ the pass itself

  function OfKinds(ks: set<Key>, kinds: set<string>): set<Key> {
    set k | k in ks && k.kind in kinds
  }

  /** The resources of one namespace. */
  class Cluster<O> {
    var store: map<Key, O>
    const served: O -> O

    constructor (store: map<Key, O>, served: O -> O)
      ensures this.store == store && this.served == served
    {
      this.store, this.served := store, served;
    }

    /** One of CreateResources, UpdateResources and DeleteResources: in some order, up to the first failure. */
    method WriteBatch(requested: map<Key, O>, batch: set<Key>) returns (ok: bool, ghost written: seq<Key>)
      modifies this
      ensures NoDuplicates(written) && Elements(written) <= batch
      ensures ok ==> Elements(written) == batch
      ensures store == WriteKeys(old(store), requested, served, written)
    {
      written := [];
      var rest := batch;
      while rest != {}
        invariant rest <= batch && NoDuplicates(written) && Elements(written) == batch - rest
        invariant store == WriteKeys(old(store), requested, served, written)
        decreases rest
      {
        var k :| k in rest;
        if * { return false, written; }
        WriteKeysConcat(old(store), requested, served, written, [k]);
        assert WriteKeys(store, requested, served, [k]) == WriteKey(store, requested, served, k);
        store := if k in requested then store[k := served(requested[k])] else store - {k};
        assert Elements(written + [k]) == Elements(written) + {k};
        rest, written := rest - {k}, written + [k];
      }
      ok := true;
    }

    /** The body of ProcessDelta's loop, for one resource kind. */
    method ProcessKind(deployed: map<Key, O>, requested: map<Key, O>, equal: (O, O) -> bool, kind: string)
      returns (any: bool, ok: bool, ghost written: seq<Key>)
      modifies this
      ensures store == WriteKeys(old(store), requested, served, written)
      ensures NoDuplicates(written) && Elements(written) <= OfKinds(Changed(deployed, requested, equal), {kind})
      ensures ok ==> Elements(written) == OfKinds(Changed(deployed, requested, equal), {kind})
      ensures ok ==> (any <==> written != [])
    {
      var added := set k | k in requested && k.kind == kind && k !in deployed;
      var updated :=
        set k | k in requested && k.kind == kind && k in deployed && !equal(deployed[k], requested[k]);
      var removed := set k | k in deployed && k.kind == kind && k !in requested;
      assert added + updated + removed == OfKinds(Changed(deployed, requested, equal), {kind});
      any := added + updated + removed != {};
      if !any { return any, true, []; }
      ghost var batch: seq<Key>;
      ok, written := WriteBatch(requested, added);
      if !ok { return; }
      ok, batch := WriteBatch(requested, updated);
      written := Extend(old(store), requested, written, batch);
      if !ok { return; }
      ok, batch := WriteBatch(requested, removed);
      written := Extend(old(store), requested, written, batch);
    }

    /**
     ProcessDelta.  Whatever order the maps are walked in and wherever a write fails, the keys written
     are distinct and from the delta; without an error they are the whole delta, and the flag then
     says whether there was any.
     */
    method ProcessDelta(deployed: map<Key, O>, requested: map<Key, O>, equal: (O, O) -> bool)
      returns (isDeltaProcessed: bool, ok: bool, ghost written: seq<Key>)
      modifies this
      ensures store == WriteKeys(old(store), requested, served, written)
      ensures Partial(deployed, requested, equal, written)
      ensures ok ==> Elements(written) == Changed(deployed, requested, equal)
      ensures ok ==> (isDeltaProcessed <==> Changed(deployed, requested, equal) != {})
    {
      isDeltaProcessed, written := false, [];
      ghost var delta := Changed(deployed, requested, equal);
      var kinds := set k | k in deployed.Keys + requested.Keys :: k.kind;
      ghost var all := kinds;
      while kinds != {}
        invariant forall k :: k in delta ==> k.kind in all
        invariant kinds <= all && NoDuplicates(written)
        invariant Elements(written) == OfKinds(delta, all - kinds)
        invariant isDeltaProcessed <==> written != []
        invariant store == WriteKeys(old(store), requested, served, written)
        decreases kinds
      {
        var kind :| kind in kinds;
        kinds := kinds - {kind};
        ghost var batch;
        var any: bool;
        any, ok, batch := ProcessKind(deployed, requested, equal, kind);
        assert OfKinds(delta, all - kinds) == OfKinds(delta, all - kinds - {kind}) + OfKinds(delta, {kind});
        written := Extend(old(store), requested, written, batch);
        if !ok { return; }
        isDeltaProcessed := isDeltaProcessed || any;
      }
      assert Elements(written) == delta;
      assert written == [] <==> Elements(written) == {} by {
        if written != [] { assert written[0] in Elements(written); }
      }
      ok := true;
    }

    /** Book-keeping for two batches on disjoint keys. */
    ghost method Extend(store0: map<Key, O>, requested: map<Key, O>, before: seq<Key>, batch: seq<Key>)
      returns (written: seq<Key>)
      requires NoDuplicates(before) && NoDuplicates(batch) && Elements(before) !! Elements(batch)
      ensures written == before + batch && NoDuplicates(written)
      ensures Elements(written) == Elements(before) + Elements(batch)
      ensures WriteKeys(store0, requested, served, written) ==
              WriteKeys(WriteKeys(store0, requested, served, before), requested, served, batch)
    {
      written := before + batch;
      forall i, j | 0 <= i < j < |written| ensures written[i] != written[j] {
        if i < |before| <= j {
          assert written[i] in Elements(before) && written[j] in Elements(batch);
        }
      }
      WriteKeysConcat(store0, requested, served, before, batch);
    }
  }

  lemma {:induction false} WriteKeysConcat<K, O>(
      store: map<K, O>, requested: map<K, O>, served: O -> O, first: seq<K>, rest: seq<K>)
    ensures WriteKeys(store, requested, served, first + rest) ==
            WriteKeys(WriteKeys(store, requested, served, first), requested, served, rest)
    decreases |first|
  {
    if first == [] {
      assert first + rest == rest;
    } else {
      assert (first + rest)[1..] == first[1..] + rest;
      WriteKeysConcat(WriteKey(store, requested, served, first[0]), requested, served, first[1..], rest);
    }
  }
}
