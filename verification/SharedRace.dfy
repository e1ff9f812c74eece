/** The shared image stream again, with a reconcile taken apart (core/infrastructure/imagestream_reconciler.go). */
module SharedRace {
  import opened Options
  import opened ImageStreams
  import opened Owners
  import opened SharedStream
  import Delta

  // The request is built on a first fetch, the comparison and the version of the update come from a second
  // one, and then the server decides.  Any number of owners interleave these steps, owners leave, and
  // other clients write the stream without changing its tags or owners, as an image import does.

  datatype Versioned = Versioned(version: nat, stream: Stream)

  type Versions = map<Delta.Key, Versioned>

  /** Where one reconcile stands. */
  datatype Pc =
    | Idle
    | Asked(first: Option<Versioned>)
    | Listed(first: Option<Versioned>, second: Option<Versioned>, strays: set<Delta.Key>)

  /** `clock` gives out resource versions, each of them once. */
  datatype State = State(store: Versions, clock: nat, workers: seq<Pc>)

  datatype Move =
    | FetchFirst(i: nat)   // createRequiredResources
    | FetchSecond(i: nat)  // getDeployedResources
    | Finish(i: nat)       // processDelta
    | Fail(i: nat)         // any request fails
    | Leave(i: nat)        // RemoveSharedImageStreamOwnerShip
    | Touch(k: Delta.Key)  // another client raises the version

  function Plain(store: Versions): Store {
    map k | k in store :: store[k].stream
  }

  function Fetched(store: Versions, k: Delta.Key): Option<Versioned> {
    if k in store then Some(store[k]) else None
  }

  function Base(fetched: Option<Versioned>): Stream {
    if fetched.Some? then fetched.value.stream else Stream([], [])
  }

  /** The stream as fetched, with tag and owner added. */
  function Request(fetched: Option<Versioned>, c: Claim): Stream {
    Stream(WithTag(Base(fetched).tags, c.tag), WithOwner(Base(fetched).owners, c.owner))
  }

  predicate Differs(first: Option<Versioned>, second: Option<Versioned>, c: Claim) {
    second.None? || !SameShared(second.value.stream, Request(first, c))
  }

  /** A creation needs the name to be free, an update the version of the second fetch. */
  predicate Accepted(store: Versions, first: Option<Versioned>, second: Option<Versioned>, c: Claim) {
    match second
    case None => first.None? && c.key !in store
    case Some(v) => c.key in store && store[c.key].version == v.version
  }

  function Put(s: State, k: Delta.Key, stream: Stream): State {
    s.(store := s.store[k := Versioned(s.clock, stream)], clock := s.clock + 1)
  }

  /** Without a difference only strays go; a refused write ends the pass before they do. */
  function Processed(s: State, i: nat, c: Claim): State
    requires i < |s.workers| && s.workers[i].Listed?
  {
    var Listed(first, second, strays) := s.workers[i];
    var idle := s.(workers := s.workers[i := Idle]);
    if !Differs(first, second, c) then idle.(store := s.store - strays)
    else if Accepted(s.store, first, second, c) then
      var t := Put(idle, c.key, Request(first, c));
      t.(store := t.store - strays)
    else idle
  }

  /** A stream that disappears between the two fetches is not created again: the request bears a version. */
  lemma {:induction false} VanishedStaysGone(claims: seq<Claim>, s: State, i: nat)
    requires |s.workers| == |claims| && i < |claims| && s.workers[i].Listed?
    requires s.workers[i].first.Some? && s.workers[i].second.None?
    ensures Step(claims, s, Finish(i)).store == s.store
  {
  }

  function Left(s: State, c: Claim): State {
    if c.key in s.store && Shared(s.store[c.key].stream.owners, c.owner.uid)
    then
      var stream := s.store[c.key].stream;
      Put(s, c.key, stream.(owners := Without(stream.owners, c.owner.uid)))
    else s
  }

  function Step(claims: seq<Claim>, s: State, m: Move): (r: State)
    requires |s.workers| == |claims|
    ensures |r.workers| == |claims|
  {
    if m.Touch? then if m.k in s.store then Put(s, m.k, s.store[m.k].stream) else s
    else if m.i >= |claims| then s
    else
      var c, pc := claims[m.i], s.workers[m.i];
      match m
      case FetchFirst(i) => if pc.Idle? then s.(workers := s.workers[i := Asked(Fetched(s.store, c.key))]) else s
      case FetchSecond(i) =>
        if pc.Asked?
        then s.(workers := s.workers[i := Listed(pc.first, Fetched(s.store, c.key), Strays(Plain(s.store), c))])
        else s
      case Finish(i) => if pc.Listed? then Processed(s, i, c) else s
      case Fail(i) => s.(workers := s.workers[i := Idle])
      case Leave(i) => if pc.Idle? then Left(s, c) else s
  }

  function Steps(claims: seq<Claim>, s: State, run: seq<Move>): (r: State)
    requires |s.workers| == |claims|
    ensures |r.workers| == |claims|
    decreases |run|
  {
    if run == [] then s else Steps(claims, Step(claims, s, run[0]), run[1..])
  }

  /** Owner `i` is about to write, and the server will accept it. */
  predicate Writes(claims: seq<Claim>, s: State, i: nat) {
    i < |claims| == |s.workers| && s.workers[i].Listed? &&
    var Listed(first, second, _) := s.workers[i];
    Differs(first, second, claims[i]) && Accepted(s.store, first, second, claims[i])
  }

  /** An accepted write whose request would have been another had it been built on the second fetch. */
  predicate Stale(claims: seq<Claim>, s: State, m: Move) {
    m.Finish? && Writes(claims, s, m.i) &&
    Request(s.workers[m.i].first, claims[m.i]) != Request(s.workers[m.i].second, claims[m.i])
  }

  predicate NeverStale(claims: seq<Claim>, s: State, run: seq<Move>)
    requires |s.workers| == |claims|
    decreases |run|
  {
    run == [] || (!Stale(claims, s, run[0]) && NeverStale(claims, Step(claims, s, run[0]), run[1..]))
  }

  predicate NoLeave(run: seq<Move>) {
    forall k :: 0 <= k < |run| ==> !run[k].Leave?
  }

  predicate Joins(claims: seq<Claim>, store: Versions, i: nat) {
    i < |claims| && Owns(Base(Fetched(store, claims[i].key)).owners, claims[i].owner.uid)
  }

  /** Every stream and every tag name is still there, and every owner but the one `gone`. */
  ghost predicate Retains(earlier: Versions, later: Versions, gone: Option<string>) {
    forall k :: k in earlier ==>
      && k in later
      && (forall n :: HasName(earlier[k].stream.tags, n) ==> HasName(later[k].stream.tags, n))
      && (forall u :: Owns(earlier[k].stream.owners, u) ==> Owns(later[k].stream.owners, u) || gone == Some(u))
  }

  /** Nobody becomes an owner but the one `come`. */
  ghost predicate AdmitsOnly(earlier: Versions, later: Versions, come: Option<string>) {
    forall k, u :: k in later && Owns(later[k].stream.owners, u) ==>
      Owns(Base(Fetched(earlier, k)).owners, u) || come == Some(u)
  }

  function Leaver(claims: seq<Claim>, m: Move): Option<string> {
    if m.Leave? && m.i < |claims| then Some(claims[m.i].owner.uid) else None
  }

  function Comer(claims: seq<Claim>, m: Move): Option<string> {
    if m.Finish? && m.i < |claims| then Some(claims[m.i].owner.uid) else None
  }

  /** Over the whole run nothing is lost, but an owner that leaves. */
  ghost predicate LosesNothing(claims: seq<Claim>, s: State, run: seq<Move>)
    requires |s.workers| == |claims|
    decreases |run|
  {
    run == [] ||
    (Retains(s.store, Step(claims, s, run[0]).store, Leaver(claims, run[0])) &&
     LosesNothing(claims, Step(claims, s, run[0]), run[1..]))
  }

  /** Over the whole run nobody becomes an owner except by its own reconcile. */
  ghost predicate RevivesNobody(claims: seq<Claim>, s: State, run: seq<Move>)
    requires |s.workers| == |claims|
    decreases |run|
  {
    run == [] ||
    (AdmitsOnly(s.store, Step(claims, s, run[0]).store, Comer(claims, run[0])) &&
     RevivesNobody(claims, Step(claims, s, run[0]), run[1..]))
  }

  // ------------------------------------------------------------------ the invariant

  /** What was fetched is what is there now, or it is older. */
  predicate Follows(fetched: Option<Versioned>, later: Option<Versioned>) {
    match (fetched, later)
    case (Some(a), Some(b)) => a.version <= b.version && (a.version == b.version ==> a == b)
    case (Some(_), None) => false
    case (None, _) => true
  }

  predicate WorkerOk(store: Versions, c: Claim, pc: Pc) {
    match pc
    case Idle => true
    case Asked(first) => Follows(first, Fetched(store, c.key))
    case Listed(first, second, strays) => strays == {} && Follows(second, Fetched(store, c.key))
  }

  /** Who owns its stream has its tag there. */
  predicate Tagged(claims: seq<Claim>, stream: Stream) {
    forall i :: 0 <= i < |claims| && Owns(stream.owners, claims[i].owner.uid) ==>
      HasName(stream.tags, claims[i].tag.name)
  }

  ghost predicate StoreOk(claims: seq<Claim>, store: Versions) {
    Sound(claims, Plain(store)) && forall k :: k in store ==> Tagged(claims, store[k].stream)
  }

  ghost predicate Inv(claims: seq<Claim>, s: State) {
    && FixedClaims(claims) && |s.workers| == |claims| && StoreOk(claims, s.store)
    && (forall k :: k in s.store ==> s.store[k].version < s.clock)
    && (forall i :: 0 <= i < |claims| ==> WorkerOk(s.store, claims[i], s.workers[i]))
  }

  /** Any store of that kind, the empty one among them, before anyone has begun. */
  ghost predicate Init(claims: seq<Claim>, s: State) {
    && FixedClaims(claims) && |s.workers| == |claims| && StoreOk(claims, s.store)
    && (forall k :: k in s.store ==> s.store[k].version < s.clock)
    && (forall i :: 0 <= i < |claims| ==> s.workers[i] == Idle)
  }

  lemma {:induction false} InitInv(claims: seq<Claim>, s: State)
    requires Init(claims, s)
    ensures Inv(claims, s)
  {
  }

  /** A new version of a stream: what the workers know stays true. */
  lemma {:induction false} PutWorkerOk(s: State, k: Delta.Key, stream: Stream, c: Claim, pc: Pc)
    requires WorkerOk(s.store, c, pc) && forall x :: x in s.store ==> s.store[x].version < s.clock
    ensures WorkerOk(Put(s, k, stream).store, c, pc)
  {
  }

  lemma {:induction false} PlainPut(s: State, k: Delta.Key, stream: Stream)
    ensures Plain(Put(s, k, stream).store) == Plain(s.store)[k := stream]
  {
  }

  /** Put keeps the invariant if the store it leaves is a good one. */
  lemma {:induction false} PutInv(claims: seq<Claim>, s: State, k: Delta.Key, stream: Stream)
    requires Inv(claims, s) && StoreOk(claims, Put(s, k, stream).store)
    ensures Inv(claims, Put(s, k, stream))
  {
    forall j | 0 <= j < |claims| ensures WorkerOk(Put(s, k, stream).store, claims[j], s.workers[j]) {
      PutWorkerOk(s, k, stream, claims[j], s.workers[j]);
    }
  }

  // ------------------------------------------------------------------ a write that is not stale

  ghost predicate Fresh(claims: seq<Claim>, s: State, i: nat) {
    |s.workers| == |claims| && Writes(claims, s, i) && !Stale(claims, s, Finish(i))
  }

  /** It is as if built on what it replaces, so it is a reconcile in one step; and it brings the owner in. */
  lemma {:induction false} FreshWrite(claims: seq<Claim>, s: State, i: nat)
    requires Inv(claims, s) && Fresh(claims, s, i)
    ensures !Joins(claims, s.store, i)
    ensures Step(claims, s, Finish(i)) ==
            Put(s.(workers := s.workers[i := Idle]), claims[i].key, Wanted(Plain(s.store), claims[i]))
  {
    var c := claims[i];
    var Listed(first, second, strays) := s.workers[i];
    assert WorkerOk(s.store, c, s.workers[i]);
    assert second == Fetched(s.store, c.key);
    assert Request(first, c) == Request(second, c) == Wanted(Plain(s.store), c);
    var base := Base(second);
    assert Owns(base.owners, c.owner.uid) ==> HasName(base.tags, c.tag.name);
    var t := Put(s.(workers := s.workers[i := Idle]), c.key, Request(first, c));
    assert t.store - strays == t.store;
  }

  lemma {:induction false} FreshIsSettle(claims: seq<Claim>, s: State, i: nat)
    requires Inv(claims, s) && Fresh(claims, s, i)
    ensures Plain(Step(claims, s, Finish(i)).store) == Settle(Plain(s.store), claims[i])
  {
    FreshWrite(claims, s, i);
    var c, store := claims[i], Plain(s.store);
    PlainPut(s.(workers := s.workers[i := Idle]), c.key, Wanted(store, c));
    assert Strays(store, c) == {};
    assert store - Strays(store, c) == store;
  }

  lemma {:induction false} RequestTagged(claims: seq<Claim>, fetched: Option<Versioned>, i: nat)
    requires i < |claims| && FixedClaims(claims) && Tagged(claims, Base(fetched))
    ensures Tagged(claims, Request(fetched, claims[i]))
  {
    var c, base := claims[i], Base(fetched);
    forall j | 0 <= j < |claims| && Owns(Request(fetched, c).owners, claims[j].owner.uid)
      ensures HasName(Request(fetched, c).tags, claims[j].tag.name)
    {
      WithOwnerOwns(base.owners, c.owner, claims[j].owner.uid);
      HasNameAppend(base.tags, c.tag, claims[j].tag.name);
    }
  }

  lemma {:induction false} PutStoreOk(claims: seq<Claim>, s: State, k: Delta.Key, stream: Stream)
    requires StoreOk(claims, s.store) && Tagged(claims, stream) && Sound(claims, Plain(s.store)[k := stream])
    ensures StoreOk(claims, Put(s, k, stream).store)
  {
    PlainPut(s, k, stream);
  }

  lemma {:induction false} FreshStoreOk(claims: seq<Claim>, s: State, i: nat)
    requires Inv(claims, s) && Fresh(claims, s, i)
    ensures StoreOk(claims, Step(claims, s, Finish(i)).store)
  {
    var c, idle, wanted := claims[i], s.(workers := s.workers[i := Idle]), Wanted(Plain(s.store), claims[i]);
    FreshWrite(claims, s, i);
    FreshIsSettle(claims, s, i);
    SettleSound(claims, Plain(s.store), i);
    PlainPut(idle, c.key, wanted);
    RequestTagged(claims, Fetched(s.store, c.key), i);
    PutStoreOk(claims, idle, c.key, wanted);
  }

  lemma {:induction false} FreshRetains(claims: seq<Claim>, s: State, i: nat)
    requires Inv(claims, s) && Fresh(claims, s, i)
    ensures var after := Step(claims, s, Finish(i)).store;
            && Retains(s.store, after, None) && Joins(claims, after, i)
            && AdmitsOnly(s.store, after, Some(claims[i].owner.uid))
  {
    var c, after := claims[i], Step(claims, s, Finish(i)).store;
    FreshWrite(claims, s, i);
    var base := Base(Fetched(s.store, c.key));
    forall n | HasName(base.tags, n) ensures HasName(after[c.key].stream.tags, n) {
      HasNameAppend(base.tags, c.tag, n);
    }
    forall u ensures Owns(after[c.key].stream.owners, u) <==> Owns(base.owners, u) || u == c.owner.uid {
      WithOwnerOwns(base.owners, c.owner, u);
    }
  }

  lemma {:induction false} FreshKeepsInv(claims: seq<Claim>, s: State, i: nat)
    requires Inv(claims, s) && Fresh(claims, s, i)
    ensures Inv(claims, Step(claims, s, Finish(i)))
  {
    FreshWrite(claims, s, i);
    FreshStoreOk(claims, s, i);
    PutInv(claims, s.(workers := s.workers[i := Idle]), claims[i].key, Wanted(Plain(s.store), claims[i]));
  }

  // ------------------------------------------------------------------ the other steps

  /** Steps that write nothing. */
  predicate Quiet(claims: seq<Claim>, s: State, m: Move) {
    match m
    case Touch(k) => k !in s.store
    case Leave(i) => !Leaves(claims, s, i)
    case Finish(i) => !Writes(claims, s, i)
    case _ => true
  }

  lemma {:induction false} QuietKeepsInv(claims: seq<Claim>, s: State, m: Move)
    requires Inv(claims, s) && Quiet(claims, s, m)
    ensures Step(claims, s, m).store == s.store && Inv(claims, Step(claims, s, m))
  {
    if !m.Touch? && m.i < |claims| {
      var c, t := claims[m.i], Step(claims, s, m);
      assert WorkerOk(s.store, c, s.workers[m.i]);
      assert Strays(Plain(s.store), c) == {};
      assert t.store == s.store;
      forall j | 0 <= j < |claims| ensures WorkerOk(t.store, claims[j], t.workers[j]) {
        assert WorkerOk(s.store, claims[j], s.workers[j]);
      }
    }
  }

  lemma {:induction false} TouchKeepsInv(claims: seq<Claim>, s: State, k: Delta.Key)
    requires Inv(claims, s) && k in s.store
    ensures Inv(claims, Step(claims, s, Touch(k))) && Plain(Step(claims, s, Touch(k)).store) == Plain(s.store)
  {
    PlainPut(s, k, s.store[k].stream);
    assert Plain(s.store)[k := s.store[k].stream] == Plain(s.store);
    PutInv(claims, s, k, s.store[k].stream);
  }

  /** A step of owner `i` that takes it off the owners' list. */
  predicate Leaves(claims: seq<Claim>, s: State, i: nat) {
    i < |claims| == |s.workers| && s.workers[i].Idle? && Left(s, claims[i]) != s
  }

  lemma {:induction false} LeaveIsGivenUp(claims: seq<Claim>, s: State, i: nat)
    requires Inv(claims, s) && Leaves(claims, s, i)
    ensures Plain(Step(claims, s, Leave(i)).store) == GivenUp(Plain(s.store), claims[i])
  {
    var c := claims[i];
    var stream := s.store[c.key].stream;
    PlainPut(s, c.key, stream.(owners := Without(stream.owners, c.owner.uid)));
  }

  lemma {:induction false} LeaveKeepsInv(claims: seq<Claim>, s: State, i: nat)
    requires Inv(claims, s) && Leaves(claims, s, i)
    ensures Inv(claims, Step(claims, s, Leave(i)))
    ensures Retains(s.store, Step(claims, s, Leave(i)).store, Some(claims[i].owner.uid))
    ensures AdmitsOnly(s.store, Step(claims, s, Leave(i)).store, None)
  {
    var c, after := claims[i], Step(claims, s, Leave(i)).store;
    var stream := s.store[c.key].stream;
    LeaveIsGivenUp(claims, s, i);
    GiveUpSound(claims, Plain(s.store), i);
    assert DistinctUids(stream.owners) by { assert Plain(s.store)[c.key] == stream; }
    forall u ensures Owns(after[c.key].stream.owners, u) <==> Owns(stream.owners, u) && u != c.owner.uid {
      ReleasedOwns(stream.owners, c.owner.uid, u);
    }
    PutInv(claims, s, c.key, stream.(owners := Without(stream.owners, c.owner.uid)));
  }

  lemma {:induction false} SameContent(a: Versions, b: Versions)
    requires Plain(a) == Plain(b)
    ensures Retains(a, b, None) && AdmitsOnly(a, b, None)
  {
    assert a.Keys == Plain(a).Keys == Plain(b).Keys == b.Keys;
    forall k | k in a ensures a[k].stream == b[k].stream {
      assert Plain(a)[k] == Plain(b)[k];
    }
  }

  /** What one step does to tags and owners: nothing, one whole reconcile, or one whole give-up. */
  ghost predicate Atomic(claims: seq<Claim>, before: Store, after: Store, m: Move) {
    || after == before
    || (m.Finish? && m.i < |claims| && after == Settle(before, claims[m.i]))
    || (m.Leave? && m.i < |claims| && after == GivenUp(before, claims[m.i]))
  }

  lemma {:induction false} StepOk(claims: seq<Claim>, s: State, m: Move)
    requires Inv(claims, s) && !Stale(claims, s, m)
    ensures var t := Step(claims, s, m);
            && Inv(claims, t) && Atomic(claims, Plain(s.store), Plain(t.store), m)
            && Retains(s.store, t.store, Leaver(claims, m)) && AdmitsOnly(s.store, t.store, Comer(claims, m))
  {
    if Quiet(claims, s, m) {
      QuietKeepsInv(claims, s, m);
      SameContent(s.store, s.store);
    } else if m.Touch? {
      TouchKeepsInv(claims, s, m.k);
      SameContent(s.store, Step(claims, s, m).store);
    } else if m.Leave? {
      LeaveKeepsInv(claims, s, m.i);
      LeaveIsGivenUp(claims, s, m.i);
    } else {
      FreshKeepsInv(claims, s, m.i);
      FreshRetains(claims, s, m.i);
      FreshIsSettle(claims, s, m.i);
    }
  }

  // ------------------------------------------------------------------ runs without stale writes

  /** Whoever reconciles, leaves or touches: without stale writes nothing is lost and nobody is brought back. */
  lemma {:induction false} NeverStaleIsSafe(claims: seq<Claim>, s: State, run: seq<Move>)
    requires Inv(claims, s) && NeverStale(claims, s, run)
    ensures LosesNothing(claims, s, run) && RevivesNobody(claims, s, run)
    ensures Inv(claims, Steps(claims, s, run))
    decreases |run|
  {
    if run != [] {
      StepOk(claims, s, run[0]);
      NeverStaleIsSafe(claims, Step(claims, s, run[0]), run[1..]);
    }
  }

  /** Every step of the one run stems from a move of the other. */
  predicate From(steps: seq<SharedStream.Step>, run: seq<Move>) {
    forall k :: 0 <= k < |steps| ==>
      if steps[k].Reconcile? then Finish(steps[k].i) in run else Leave(steps[k].i) in run
  }

  lemma {:induction false} FromCons(step: SharedStream.Step, steps: seq<SharedStream.Step>, run: seq<Move>)
    requires run != [] && From(steps, run[1..])
    requires run[0] == if step.Reconcile? then Finish(step.i) else Leave(step.i)
    ensures From([step] + steps, run)
  {
  }

  /**
   A run without stale writes is a run of reconciles and give-ups in one step each, so all that holds of
   those holds of it.
   */
  lemma {:induction false} RefinesAtomic(claims: seq<Claim>, s: State, run: seq<Move>)
    returns (steps: seq<SharedStream.Step>)
    requires Inv(claims, s) && NeverStale(claims, s, run)
    ensures From(steps, run)
    ensures SharedStream.Run(claims, Plain(s.store), steps) == Plain(Steps(claims, s, run).store)
    decreases |run|
  {
    steps := [];
    if run != [] {
      var m, next := run[0], Step(claims, s, run[0]);
      StepOk(claims, s, m);
      var rest := RefinesAtomic(claims, next, run[1..]);
      steps := rest;
      if Plain(next.store) != Plain(s.store) {
        var step := if m.Finish? then Reconcile(m.i) else GiveUp(m.i);
        FromCons(step, rest, run);
        steps := [step] + rest;
      } else {
        assert forall x :: x in run[1..] ==> x in run;
      }
    }
  }

  /** The accepted writes of owner `i`, and how often it left. */
  function WritesOf(claims: seq<Claim>, s: State, run: seq<Move>, i: nat): nat
    requires |s.workers| == |claims|
    decreases |run|
  {
    if run == [] then 0 else
    (if run[0] == Finish(i) && Writes(claims, s, i) then 1 else 0) +
    WritesOf(claims, Step(claims, s, run[0]), run[1..], i)
  }

  function LeavesOf(run: seq<Move>, i: nat): nat {
    if run == [] then 0 else (if run[0] == Leave(i) then 1 else 0) + LeavesOf(run[1..], i)
  }

  lemma {:induction false} StaysJoined(claims: seq<Claim>, s: State, m: Move, i: nat)
    requires Inv(claims, s) && !Stale(claims, s, m) && i < |claims| && m != Leave(i) && Joins(claims, s.store, i)
    ensures Joins(claims, Step(claims, s, m).store, i)
  {
    StepOk(claims, s, m);
    assert Leaver(claims, m) != Some(claims[i].owner.uid);
  }

  /** Without stale writes each owner writes at most once, plus once for every time it left. */
  lemma {:induction false} WritesAtMostOnce(claims: seq<Claim>, s: State, run: seq<Move>, i: nat)
    requires Inv(claims, s) && NeverStale(claims, s, run) && i < |claims|
    ensures WritesOf(claims, s, run, i) <= (if Joins(claims, s.store, i) then 0 else 1) + LeavesOf(run, i)
    decreases |run|
  {
    if run != [] {
      StepOk(claims, s, run[0]);
      if run[0] == Finish(i) && Writes(claims, s, i) {
        FreshWrite(claims, s, i);
        FreshRetains(claims, s, i);
      } else if Joins(claims, s.store, i) && run[0] != Leave(i) {
        StaysJoined(claims, s, run[0], i);
      }
      WritesAtMostOnce(claims, Step(claims, s, run[0]), run[1..], i);
    }
  }

  // ------------------------------------------------------------------ runs in which nobody leaves

  /** Owners `i` and `j` share a stream. */
  predicate Partners(claims: seq<Claim>, i: nat, j: nat) {
    i < |claims| && j < |claims| && j != i && claims[j].key == claims[i].key
  }

  /** A partner of `i` has become an owner in between. */
  predicate Joined(claims: seq<Claim>, i: nat, before: Stream, after: Stream) {
    exists j :: 0 <= j < |claims| && Partners(claims, i, j) &&
                Owns(after.owners, claims[j].owner.uid) && !Owns(before.owners, claims[j].owner.uid)
  }

  predicate Grew(claims: seq<Claim>, i: nat, before: Option<Versioned>, after: Option<Versioned>) {
    Base(before) == Base(after) || Joined(claims, i, Base(before), Base(after))
  }

  /** Tags and owners change only where a partner joins. */
  predicate WorkerCalm(claims: seq<Claim>, store: Versions, i: nat, pc: Pc) {
    i < |claims| &&
    match pc
    case Idle => true
    case Asked(first) => Grew(claims, i, first, Fetched(store, claims[i].key))
    case Listed(first, second, _) =>
      Grew(claims, i, first, second) && Grew(claims, i, second, Fetched(store, claims[i].key))
  }

  ghost predicate Calm(claims: seq<Claim>, s: State) {
    Inv(claims, s) && forall i :: 0 <= i < |claims| ==> WorkerCalm(claims, s.store, i, s.workers[i])
  }

  /** A fresh write of a partner is a join. */
  lemma {:induction false} FreshGrew(claims: seq<Claim>, s: State, j: nat, i: nat, fetched: Option<Versioned>)
    requires Inv(claims, s) && Fresh(claims, s, j) && i < |claims| && i != j
    requires Grew(claims, i, fetched, Fetched(s.store, claims[i].key))
    ensures Grew(claims, i, fetched, Fetched(Step(claims, s, Finish(j)).store, claims[i].key))
  {
    FreshWrite(claims, s, j);
    var k := claims[i].key;
    if k == claims[j].key {
      var c := claims[j];
      var before, after := Base(Fetched(s.store, k)), Wanted(Plain(s.store), c);
      forall u ensures Owns(after.owners, u) <==> Owns(before.owners, u) || u == c.owner.uid {
        WithOwnerOwns(before.owners, c.owner, u);
      }
      assert Partners(claims, i, j);
    }
  }

  lemma {:induction false} StepCalm(claims: seq<Claim>, s: State, m: Move)
    requires Calm(claims, s) && !Stale(claims, s, m) && !m.Leave?
    ensures Calm(claims, Step(claims, s, m))
  {
    var t := Step(claims, s, m);
    StepOk(claims, s, m);
    forall i | 0 <= i < |claims| ensures WorkerCalm(claims, t.store, i, t.workers[i]) {
      assert WorkerCalm(claims, s.store, i, s.workers[i]);
      if m.Finish? && Writes(claims, s, m.i) {
        FreshWrite(claims, s, m.i);
        if i != m.i {
          match s.workers[i]
          case Idle =>
          case Asked(first) => FreshGrew(claims, s, m.i, i, first);
          case Listed(_, second, _) => FreshGrew(claims, s, m.i, i, second);
        }
      } else if !m.Touch? {
        assert Quiet(claims, s, m);
        QuietKeepsInv(claims, s, m);
      }
    }
  }

  /** A stale write drops a partner that joined in between. */
  lemma {:induction false} StaleLoses(claims: seq<Claim>, s: State, m: Move)
    requires Calm(claims, s) && Stale(claims, s, m)
    ensures !Retains(s.store, Step(claims, s, m).store, None)
  {
    var i := m.i;
    var c := claims[i];
    var Listed(first, second, strays) := s.workers[i];
    assert WorkerOk(s.store, c, s.workers[i]) && WorkerCalm(claims, s.store, i, s.workers[i]);
    assert s.store[c.key] == second.value;
    var j :| 0 <= j < |claims| && Partners(claims, i, j) &&
             Owns(second.value.stream.owners, claims[j].owner.uid) && !Owns(Base(first).owners, claims[j].owner.uid);
    WithOwnerOwns(Base(first).owners, c.owner, claims[j].owner.uid);
    assert Step(claims, s, m).store[c.key].stream == Request(first, c);
  }

  lemma {:induction false} LosesNothingFrom(claims: seq<Claim>, s: State, run: seq<Move>)
    requires Calm(claims, s) && NoLeave(run)
    ensures LosesNothing(claims, s, run) <==> NeverStale(claims, s, run)
    decreases |run|
  {
    if run != [] {
      if Stale(claims, s, run[0]) {
        StaleLoses(claims, s, run[0]);
      } else {
        StepOk(claims, s, run[0]);
        StepCalm(claims, s, run[0]);
        LosesNothingFrom(claims, Step(claims, s, run[0]), run[1..]);
      }
    }
  }

  /**
   Over every run of any number of owners that stay: no stream, tag or owner is ever lost if and only if no
   accepted write was built on a first fetch that asks for something else than the second would have.
   Versions raised by other clients do no harm.
   */
  lemma {:induction false} LosesNothingIffNeverStale(claims: seq<Claim>, s: State, run: seq<Move>)
    requires Init(claims, s) && NoLeave(run)
    ensures LosesNothing(claims, s, run) <==> NeverStale(claims, s, run)
  {
    InitInv(claims, s);
    LosesNothingFrom(claims, s, run);
  }

  // ------------------------------------------------------------------ what can be known beforehand

  /** Of owners that share a stream all have joined. */
  predicate AllJoined(claims: seq<Claim>, store: Versions) {
    forall i, j :: 0 <= i < |claims| && 0 <= j < |claims| && Partners(claims, i, j) ==> Joins(claims, store, j)
  }

  predicate SeesPartners(claims: seq<Claim>, i: nat, fetched: Option<Versioned>) {
    forall j :: 0 <= j < |claims| && Partners(claims, i, j) ==> Owns(Base(fetched).owners, claims[j].owner.uid)
  }

  predicate WorkerComplete(claims: seq<Claim>, i: nat, pc: Pc) {
    pc.Idle? || SeesPartners(claims, i, pc.first)
  }

  /** Every reconcile under way has seen its partners at its first fetch. */
  ghost predicate Complete(claims: seq<Claim>, s: State) {
    && Calm(claims, s) && AllJoined(claims, s.store)
    && forall i :: 0 <= i < |claims| ==> WorkerComplete(claims, i, s.workers[i])
  }

  lemma {:induction false} CompleteNotStale(claims: seq<Claim>, s: State, m: Move)
    requires Complete(claims, s)
    ensures !Stale(claims, s, m)
  {
    if m.Finish? && m.i < |claims| && s.workers[m.i].Listed? {
      assert WorkerCalm(claims, s.store, m.i, s.workers[m.i]) && WorkerComplete(claims, m.i, s.workers[m.i]);
    }
  }

  lemma {:induction false} AllJoinedNext(claims: seq<Claim>, s: State, m: Move)
    requires Inv(claims, s) && !Stale(claims, s, m) && AllJoined(claims, s.store) && !m.Leave?
    ensures AllJoined(claims, Step(claims, s, m).store)
  {
    forall i, j | 0 <= i < |claims| && 0 <= j < |claims| && Partners(claims, i, j)
      ensures Joins(claims, Step(claims, s, m).store, j)
    {
      StaysJoined(claims, s, m, j);
    }
  }

  lemma {:induction false} FetchSeesPartners(claims: seq<Claim>, store: Versions, i: nat)
    requires AllJoined(claims, store) && i < |claims|
    ensures SeesPartners(claims, i, Fetched(store, claims[i].key))
  {
    forall j | 0 <= j < |claims| && Partners(claims, i, j)
      ensures Owns(Base(Fetched(store, claims[i].key)).owners, claims[j].owner.uid)
    {
      assert Joins(claims, store, j);
    }
  }

  /** A step leaves a worker's first fetch alone, unless it makes or forgets it. */
  lemma {:induction false} FirstFetch(claims: seq<Claim>, s: State, m: Move, i: nat)
    requires |s.workers| == |claims| && i < |claims|
    ensures var pc, after := s.workers[i], Step(claims, s, m).workers[i];
            || after.Idle?
            || (!pc.Idle? && after.first == pc.first)
            || after == Asked(Fetched(s.store, claims[i].key))
  {
    if m.Touch? || m.i != i {
      assert Step(claims, s, m).workers[i] == s.workers[i];
    }
  }

  lemma {:induction false} CompleteNext(claims: seq<Claim>, s: State, m: Move)
    requires Complete(claims, s) && !m.Leave?
    ensures Complete(claims, Step(claims, s, m))
  {
    CompleteNotStale(claims, s, m);
    StepCalm(claims, s, m);
    AllJoinedNext(claims, s, m);
    forall i | 0 <= i < |claims| ensures WorkerComplete(claims, i, Step(claims, s, m).workers[i]) {
      assert WorkerComplete(claims, i, s.workers[i]);
      FirstFetch(claims, s, m, i);
      FetchSeesPartners(claims, s.store, i);
    }
  }

  lemma {:induction false} CompleteNeverStale(claims: seq<Claim>, s: State, run: seq<Move>)
    requires Complete(claims, s) && NoLeave(run)
    ensures NeverStale(claims, s, run)
    decreases |run|
  {
    if run != [] {
      CompleteNotStale(claims, s, run[0]);
      CompleteNext(claims, s, run[0]);
      CompleteNeverStale(claims, Step(claims, s, run[0]), run[1..]);
    }
  }

  lemma {:induction false} RunConcat(claims: seq<Claim>, s: State, a: seq<Move>, b: seq<Move>)
    requires |s.workers| == |claims|
    ensures Steps(claims, s, a + b) == Steps(claims, Steps(claims, s, a), b)
    ensures NeverStale(claims, s, a + b) ==> NeverStale(claims, Steps(claims, s, a), b)
    ensures RevivesNobody(claims, s, a + b) ==> RevivesNobody(claims, Steps(claims, s, a), b)
    decreases |a|
  {
    if a == [] {
      assert a + b == b;
    } else {
      assert (a + b)[1..] == a[1..] + b;
      RunConcat(claims, Step(claims, s, a[0]), a[1..], b);
    }
  }

  lemma {:induction false} OneStep(claims: seq<Claim>, s: State, m: Move)
    requires |s.workers| == |claims|
    ensures Steps(claims, s, [m]) == Step(claims, s, m)
  {
    assert [m][1..] == [];
  }

  lemma {:induction false} TwoMoves(claims: seq<Claim>, s: State, before: seq<Move>, a: Move, b: Move)
    requires |s.workers| == |claims|
    ensures var t := Step(claims, Steps(claims, s, before), a);
            && Steps(claims, s, before + [a] + [b]) == Step(claims, t, b)
            && (NeverStale(claims, s, before + [a] + [b]) ==> NeverStale(claims, t, [b]))
            && (RevivesNobody(claims, s, before + [a] + [b]) ==> RevivesNobody(claims, t, [b]))
  {
    var t := Steps(claims, s, before);
    RunConcat(claims, s, before, [a]);
    OneStep(claims, t, a);
    RunConcat(claims, s, before + [a], [b]);
    OneStep(claims, Step(claims, t, a), b);
  }

  /** A reconcile that nobody disturbs. */
  function Whole(j: nat): seq<Move> {
    [FetchFirst(j), FetchSecond(j), Finish(j)]
  }

  lemma {:induction false} FinishAlone(s: State, i: nat, c: Claim)
    requires i < |s.workers|
    requires s.workers[i] == Listed(Fetched(s.store, c.key), Fetched(s.store, c.key), Strays(Plain(s.store), c))
    ensures Plain(Processed(s, i, c).store) == Settle(Plain(s.store), c)
  {
    var here, strays := Fetched(s.store, c.key), Strays(Plain(s.store), c);
    assert Request(here, c) == Wanted(Plain(s.store), c);
    assert Plain(s.store - strays) == Plain(s.store) - strays;
    if !Differs(here, here, c) {
      assert Settle(Plain(s.store), c) == Plain(s.store) - strays;
    }
  }

  /** From any state at all, strays included, a reconcile that nobody disturbs is the reconcile in one step. */
  lemma {:induction false} WholeIsSettle(claims: seq<Claim>, s: State, i: nat)
    requires |s.workers| == |claims| && i < |claims| && s.workers[i].Idle?
    ensures Plain(Steps(claims, s, Whole(i)).store) == Settle(Plain(s.store), claims[i])
  {
    var s1 := Step(claims, s, FetchFirst(i));
    var s2 := Step(claims, s1, FetchSecond(i));
    assert Whole(i)[1..] == [FetchSecond(i), Finish(i)] && [FetchSecond(i), Finish(i)][1..] == [Finish(i)];
    OneStep(claims, s2, Finish(i));
    assert Steps(claims, s1, [FetchSecond(i), Finish(i)]) == Steps(claims, s2, [Finish(i)]);
    FinishAlone(s2, i, claims[i]);
  }

  lemma {:induction false} WholeReconcile(claims: seq<Claim>, s: State, j: nat)
    requires Inv(claims, s) && j < |claims| && s.workers[j].Idle? && !Joins(claims, s.store, j)
    ensures Steps(claims, s, Whole(j)) == Put(s, claims[j].key, Request(Fetched(s.store, claims[j].key), claims[j]))
  {
    var c, here := claims[j], Fetched(s.store, claims[j].key);
    var s1 := s.(workers := s.workers[j := Asked(here)]);
    var s2 := s.(workers := s.workers[j := Listed(here, here, {})]);
    assert Step(claims, s, FetchFirst(j)) == s1;
    assert Step(claims, s1, FetchSecond(j)) == s2 by { assert Strays(Plain(s.store), c) == {}; }
    WithOwnerOwns(Base(here).owners, c.owner, c.owner.uid);
    assert Differs(here, here, c) && Accepted(s.store, here, here, c);
    var t := Put(s, c.key, Request(here, c));
    assert s2.workers[j := Idle] == s.workers && t.store - {} == t.store;
    assert Step(claims, s2, Finish(j)) == t;
    assert Whole(j)[1..] == [FetchSecond(j), Finish(j)] && [FetchSecond(j), Finish(j)][1..] == [Finish(j)];
    OneStep(claims, s2, Finish(j));
    assert Steps(claims, s1, [FetchSecond(j), Finish(j)]) == Steps(claims, s2, [Finish(j)]);
  }

  /** The second half of a reconcile: what it writes is the request built on its first fetch. */
  lemma {:induction false} SecondHalf(claims: seq<Claim>, s: State, i: nat)
    requires |s.workers| == |claims| && i < |claims| && s.workers[i].Asked? && claims[i].key in s.store
    requires Strays(Plain(s.store), claims[i]) == {}
    requires Request(s.workers[i].first, claims[i]) != s.store[claims[i].key].stream
    ensures var t := Step(claims, s, FetchSecond(i));
            && Writes(claims, t, i)
            && t.workers[i] == Listed(s.workers[i].first, Some(s.store[claims[i].key]), {})
            && claims[i].key in Step(claims, t, Finish(i)).store
            && Step(claims, t, Finish(i)).store[claims[i].key].stream == Request(s.workers[i].first, claims[i])
  {
  }

  /** Owner `j` reconciles between the two fetches of owner `i`. */
  function LossyRun(i: nat, j: nat): seq<Move> {
    [FetchFirst(i)] + Whole(j) + [FetchSecond(i)] + [Finish(i)]
  }

  /** The state when owner `i` has made its first fetch and owner `j` has joined since. */
  lemma {:induction false} PartnerJoins(claims: seq<Claim>, s: State, i: nat, j: nat) returns (t: State)
    requires Init(claims, s) && i < |claims| && Partners(claims, i, j) && !Joins(claims, s.store, j)
    ensures t == Steps(claims, s, [FetchFirst(i)] + Whole(j)) && Strays(Plain(t.store), claims[i]) == {}
    ensures t.workers[i] == Asked(Fetched(s.store, claims[i].key))
    ensures claims[i].key in t.store && Owns(t.store[claims[i].key].stream.owners, claims[j].owner.uid)
  {
    var c, here := claims[j], Fetched(s.store, claims[j].key);
    var s1 := Step(claims, s, FetchFirst(i));
    InitInv(claims, s);
    QuietKeepsInv(claims, s, FetchFirst(i));
    WholeReconcile(claims, s1, j);
    t := Put(s1, c.key, Request(here, c));
    OneStep(claims, s, FetchFirst(i));
    RunConcat(claims, s, [FetchFirst(i)], Whole(j));
    WithOwnerOwns(Base(here).owners, c.owner, c.owner.uid);
    PlainPut(s1, c.key, Request(here, c));
    assert Strays(Plain(s.store), claims[i]) == {};
  }

  lemma {:induction false} LossyRunIsStale(claims: seq<Claim>, s: State, i: nat, j: nat)
    requires Init(claims, s) && i < |claims| && Partners(claims, i, j) && !Joins(claims, s.store, j)
    ensures !NeverStale(claims, s, LossyRun(i, j))
  {
    var t := PartnerJoins(claims, s, i, j);
    var c, uid, first, second := claims[i], claims[j].owner.uid, t.workers[i].first, Some(t.store[claims[i].key]);
    WithOwnerOwns(Base(first).owners, c.owner, uid);
    WithOwnerOwns(Base(second).owners, c.owner, uid);
    assert !Owns(Request(first, c).owners, uid) && Owns(Request(second, c).owners, uid);
    SecondHalf(claims, t, i);
    var u := Step(claims, t, FetchSecond(i));
    assert Stale(claims, u, Finish(i)) && !NeverStale(claims, u, [Finish(i)]);
    TwoMoves(claims, s, [FetchFirst(i)] + Whole(j), FetchSecond(i), Finish(i));
  }

  /**
   Before anyone begins it can be told: over all runs in which nobody leaves, nothing is ever lost if and
   only if of owners that share a stream all have joined it already.
   */
  lemma {:induction false} SafeIffAllJoined(claims: seq<Claim>, s: State)
    requires Init(claims, s)
    ensures (forall run: seq<Move> | NoLeave(run) :: LosesNothing(claims, s, run)) <==> AllJoined(claims, s.store)
  {
    InitInv(claims, s);
    if AllJoined(claims, s.store) {
      forall run: seq<Move> | NoLeave(run) ensures LosesNothing(claims, s, run) {
        CompleteNeverStale(claims, s, run);
        LosesNothingFrom(claims, s, run);
      }
    } else {
      var i, j :| 0 <= i < |claims| && 0 <= j < |claims| && Partners(claims, i, j) && !Joins(claims, s.store, j);
      LossyRunIsStale(claims, s, i, j);
      LosesNothingFrom(claims, s, LossyRun(i, j));
    }
  }

  // ------------------------------------------------------------------ an owner that left

  /** Owner `i` begins, owner `j` leaves, owner `i` goes on. */
  function ReviveRun(i: nat, j: nat): seq<Move> {
    [FetchFirst(i)] + [Leave(j)] + [FetchSecond(i)] + [Finish(i)]
  }

  /** After the first two of those moves owner `j` is gone. */
  lemma {:induction false} PartnerLeaves(claims: seq<Claim>, s: State, i: nat, j: nat) returns (t: State)
    requires Init(claims, s) && i < |claims| && Partners(claims, i, j)
    requires claims[j].key in s.store && Shared(s.store[claims[j].key].stream.owners, claims[j].owner.uid)
    ensures t == Steps(claims, s, [FetchFirst(i)] + [Leave(j)]) && Strays(Plain(t.store), claims[i]) == {}
    ensures t.workers[i] == Asked(Some(s.store[claims[i].key])) && claims[i].key in t.store
    ensures !Owns(t.store[claims[i].key].stream.owners, claims[j].owner.uid)
  {
    var k, uid := claims[j].key, claims[j].owner.uid;
    InitInv(claims, s);
    var s1 := Step(claims, s, FetchFirst(i));
    QuietKeepsInv(claims, s, FetchFirst(i));
    t := Step(claims, s1, Leave(j));
    StepOk(claims, s1, Leave(j));
    OneStep(claims, s, FetchFirst(i));
    OneStep(claims, s1, Leave(j));
    RunConcat(claims, s, [FetchFirst(i)], [Leave(j)]);
    assert DistinctUids(s.store[k].stream.owners) by { assert Plain(s.store)[k] == s.store[k].stream; }
    ReleasedOwns(s.store[k].stream.owners, uid, uid);
  }

  /**
   A stale write can also bring back an owner that left: whoever joins a shared stream, while another leaves
   it between the two fetches, writes that other one back.
   */
  lemma {:induction false} LeaverIsBroughtBack(claims: seq<Claim>, s: State, i: nat, j: nat)
    requires Init(claims, s) && i < |claims| && Partners(claims, i, j)
    requires claims[j].key in s.store && Shared(s.store[claims[j].key].stream.owners, claims[j].owner.uid)
    ensures !Joins(claims, Steps(claims, s, [FetchFirst(i)] + [Leave(j)]).store, j)
    ensures Joins(claims, Steps(claims, s, ReviveRun(i, j)).store, j)
    ensures !RevivesNobody(claims, s, ReviveRun(i, j))
  {
    var t := PartnerLeaves(claims, s, i, j);
    WithOwnerOwns(s.store[claims[i].key].stream.owners, claims[i].owner, claims[j].owner.uid);
    WritesBack(claims, t, i, j);
    TwoMoves(claims, s, [FetchFirst(i)] + [Leave(j)], FetchSecond(i), Finish(i));
  }

  lemma {:induction false} WritesBack(claims: seq<Claim>, t: State, i: nat, j: nat)
    requires FixedClaims(claims) && |t.workers| == |claims| && i < |claims| && Partners(claims, i, j)
    requires t.workers[i].Asked? && claims[i].key in t.store && Strays(Plain(t.store), claims[i]) == {}
    requires !Owns(t.store[claims[i].key].stream.owners, claims[j].owner.uid)
    requires Owns(Request(t.workers[i].first, claims[i]).owners, claims[j].owner.uid)
    ensures var u := Step(claims, t, FetchSecond(i));
            Joins(claims, Step(claims, u, Finish(i)).store, j) && !RevivesNobody(claims, u, [Finish(i)])
  {
    SecondHalf(claims, t, i);
    var u := Step(claims, t, FetchSecond(i));
    assert u.store == t.store && claims[i].owner.uid != claims[j].owner.uid;
    var k, after := claims[i].key, Step(claims, u, Finish(i)).store;
    assert k in after && Owns(after[k].stream.owners, claims[j].owner.uid);
    assert !Owns(Base(Fetched(u.store, k)).owners, claims[j].owner.uid);
    assert Comer(claims, Finish(i)) == Some(claims[i].owner.uid) != Some(claims[j].owner.uid);
    assert !AdmitsOnly(u.store, after, Comer(claims, Finish(i)));
  }

  predicate NoneShare(claims: seq<Claim>) {
    forall i, j :: 0 <= i < |claims| && 0 <= j < |claims| ==> !Partners(claims, i, j)
  }

  /** With a stream to itself, an owner sees no change between its fetches but its own. */
  lemma {:induction false} AloneNotStale(claims: seq<Claim>, s: State, m: Move)
    requires Calm(claims, s) && NoneShare(claims)
    ensures !Stale(claims, s, m)
  {
    if m.Finish? && m.i < |claims| {
      assert WorkerCalm(claims, s.store, m.i, s.workers[m.i]);
    }
  }

  lemma {:induction false} AloneLeaves(claims: seq<Claim>, s: State, i: nat)
    requires Calm(claims, s) && NoneShare(claims) && Leaves(claims, s, i)
    ensures Calm(claims, Step(claims, s, Leave(i)))
  {
    LeaveKeepsInv(claims, s, i);
    var t := Step(claims, s, Leave(i));
    forall j | 0 <= j < |claims| ensures WorkerCalm(claims, t.store, j, t.workers[j]) {
      assert WorkerCalm(claims, s.store, j, s.workers[j]) && !Partners(claims, i, j);
      assert t.workers[j] == s.workers[j] && (j != i ==> Fetched(t.store, claims[j].key) == Fetched(s.store, claims[j].key));
    }
  }

  lemma {:induction false} AloneCalm(claims: seq<Claim>, s: State, m: Move)
    requires Calm(claims, s) && NoneShare(claims)
    ensures Calm(claims, Step(claims, s, m))
  {
    AloneNotStale(claims, s, m);
    if !m.Leave? {
      StepCalm(claims, s, m);
    } else if Leaves(claims, s, m.i) {
      AloneLeaves(claims, s, m.i);
    } else {
      QuietKeepsInv(claims, s, m);
      assert Step(claims, s, m) == s;
    }
  }

  lemma {:induction false} AloneNeverStale(claims: seq<Claim>, s: State, run: seq<Move>)
    requires Calm(claims, s) && NoneShare(claims)
    ensures NeverStale(claims, s, run)
    decreases |run|
  {
    if run != [] {
      AloneNotStale(claims, s, run[0]);
      AloneCalm(claims, s, run[0]);
      AloneNeverStale(claims, Step(claims, s, run[0]), run[1..]);
    }
  }

  lemma {:induction false} BothJoinedIsShared(refs: seq<OwnerRef>, u: string, v: string)
    requires Owns(refs, u) && Owns(refs, v) && u != v
    ensures Shared(refs, u)
  {
  }

  /**
   With owners that come and go: over all runs nothing is lost and nobody brought back if and only if no
   two owners share a stream, which is what the reconciler is for.
   */
  lemma {:induction false} SafeIffNoneShare(claims: seq<Claim>, s: State)
    requires Init(claims, s)
    ensures (forall run: seq<Move> :: LosesNothing(claims, s, run) && RevivesNobody(claims, s, run))
            <==> NoneShare(claims)
  {
    InitInv(claims, s);
    if NoneShare(claims) {
      forall run: seq<Move> ensures LosesNothing(claims, s, run) && RevivesNobody(claims, s, run) {
        AloneNeverStale(claims, s, run);
        NeverStaleIsSafe(claims, s, run);
      }
    } else {
      var i, j :| 0 <= i < |claims| && 0 <= j < |claims| && Partners(claims, i, j);
      if !Joins(claims, s.store, j) {
        LossyRunIsStale(claims, s, i, j);
        LosesNothingFrom(claims, s, LossyRun(i, j));
      } else if !Joins(claims, s.store, i) {
        LossyRunIsStale(claims, s, j, i);
        LosesNothingFrom(claims, s, LossyRun(j, i));
      } else {
        BothJoinedIsShared(s.store[claims[i].key].stream.owners, claims[j].owner.uid, claims[i].owner.uid);
        LeaverIsBroughtBack(claims, s, i, j);
      }
    }
  }
}
