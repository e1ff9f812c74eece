/** Build controllers that race to add the image stream tags their builds need (core/kogitobuild/image_stream.go). */
module RequiredTags {
  import opened Options
  import opened ImageStreams

  // CreateRequiredKogitoImageStreams makes two calls in turn, one for the builder image and one for the
  // runtime image.  One call fetches the stream, then either finds its tag, or creates the stream, or
  // appends the tag to the copy it fetched and sends that copy back.  Every request to the API server is
  // one step, so a run is any interleaving of the steps of any number of controllers, with retries and
  // with two kinds of failure: a request that never gets to the server, and one that does but whose
  // reply is lost.

  /** A stored image stream; the server raises `version` on every accepted write. */
  datatype Stream = Stream(version: nat, tags: seq<Tag>)

  type Store = map<string, Stream>

  /** One required tag: newKogitoImageStream yields a stream that holds exactly one tag. */
  datatype Need = Need(stream: string, tag: Tag)

  /** What one KogitoBuild asks for. */
  datatype Build = Build(builder: Need, runtime: Need)

  datatype Half = Builder | Runtime

  /** Where a controller stands inside CreateRequiredKogitoImageStreams. */
  datatype Pc =
    | Fetch
    | Create
    | Update(version: Option<nat>, tags: seq<Tag>)  // the local copy that is about to be sent
    | Returned(created: bool, ok: bool)

  /**
   `half`, `pc` and `wrote` are the controller's own; `callStart` (log length when this call began),
   `seen` (log length at the last fetch) and `refusals` only record history.
   */
  datatype Worker = Worker(half: Half, pc: Pc, wrote: bool, callStart: nat, seen: nat, refusals: nat)

  datatype Write = Write(worker: nat, stream: string, tag: Tag)

  datatype State = State(store: Store, workers: seq<Worker>, log: seq<Write>)

  /** How the server treats an update that carries no resource version. */
  datatype Server = RefusesUnversioned | AcceptsUnversioned

  datatype Action =
    | Request(worker: nat)
    | Fault(worker: nat)      // the request fails and has no effect
    | LostReply(worker: nat)  // the request has its effect, but the controller sees an error
    | Retry(worker: nat)

  predicate HasTag(store: Store, stream: string, name: string) {
    stream in store && HasName(store[stream].tags, name)
  }

  function NeedOf(b: Build, half: Half): Need {
    match half
    case Builder => b.builder
    case Runtime => b.runtime
  }

  /** The call for one half is over; go on to the other half or return. */
  function Advance(w: Worker, wrote: bool): Worker {
    match w.half
    case Builder => w.(half := Runtime, pc := Fetch, wrote := wrote)
    case Runtime => w.(pc := Returned(wrote, true), wrote := wrote)
  }

  function Abort(w: Worker): Worker {
    w.(pc := Returned(false, false))
  }

  function Restart(w: Worker, now: nat): Worker {
    Worker(Builder, Fetch, false, now, w.seen, w.refusals)
  }

  function AfterFetch(store: Store, need: Need, w: Worker, now: nat): Worker {
    if need.stream !in store then w.(pc := Create, seen := now)
    else if HasName(store[need.stream].tags, need.tag.name) then Advance(w.(seen := now), w.wrote)
    else w.(pc := Update(Some(store[need.stream].version), store[need.stream].tags), seen := now)
  }

  predicate Accepts(server: Server, store: Store, stream: string, version: Option<nat>) {
    stream in store &&
    match version
    case Some(v) => v == store[stream].version
    case None => server.AcceptsUnversioned?
  }

  function Put(s: State, i: nat, w: Worker, need: Need, stored: Stream): State
    requires i < |s.workers|
  {
    State(s.store[need.stream := stored], s.workers[i := w], s.log + [Write(i, need.stream, need.tag)])
  }

  /** One request of controller `i`. */
  function Send(server: Server, cfg: seq<Build>, s: State, i: nat): State
    requires i < |s.workers| == |cfg|
  {
    var w := s.workers[i];
    var need := NeedOf(cfg[i], w.half);
    match w.pc
    case Fetch => s.(workers := s.workers[i := AfterFetch(s.store, need, w, |s.log|)])
    case Create =>
      if need.stream in s.store
      // AlreadyExists: the local object still has neither tags nor a version
      then s.(workers := s.workers[i := w.(pc := Update(None, []))])
      else Put(s, i, Advance(w, true), need, Stream(1, [need.tag]))
    case Update(version, tags) =>
      if Accepts(server, s.store, need.stream, version)
      then Put(s, i, Advance(w, true), need, Stream(s.store[need.stream].version + 1, tags + [need.tag]))
      else s.(workers := s.workers[i := Abort(w).(refusals := w.refusals + 1)])
    case Returned(_, _) => s
  }

  function Next(server: Server, cfg: seq<Build>, s: State, a: Action): State
    requires |s.workers| == |cfg|
  {
    if a.worker >= |cfg| then s else
    var w := s.workers[a.worker];
    match a
    case Request(i) => Send(server, cfg, s, i)
    case Fault(i) => if w.pc.Returned? then s else s.(workers := s.workers[i := Abort(w)])
    case LostReply(i) =>
      if w.pc.Returned? then s else Send(server, cfg, s, i).(workers := s.workers[i := Abort(w)])
    case Retry(i) => if w.pc.Returned? then s.(workers := s.workers[i := Restart(w, |s.log|)]) else s
  }

  function Exec(server: Server, cfg: seq<Build>, s: State, run: seq<Action>): (r: State)
    requires |s.workers| == |cfg|
    ensures |r.workers| == |cfg|
    decreases |run|
  {
    if run == [] then s else Exec(server, cfg, Next(server, cfg, s, run[0]), run[1..])
  }

  predicate DistinctStore(store: Store) {
    forall n :: n in store ==> DistinctNames(store[n].tags)
  }

  /** Any number of controllers, each at the start of its call, over any store with distinct tag names. */
  predicate Init(cfg: seq<Build>, s: State) {
    && DistinctStore(s.store)
    && s.log == []
    && |s.workers| == |cfg|
    && forall i :: 0 <= i < |cfg| ==> s.workers[i] == Worker(Builder, Fetch, false, 0, 0, 0)
  }

  /** `later` keeps every stream of `earlier`, with its tags in place as a prefix. */
  predicate Keeps(earlier: Store, later: Store) {
    forall n :: n in earlier ==> n in later && earlier[n].tags <= later[n].tags
  }

  predicate WroteSince(log: seq<Write>, from: nat, i: nat) {
    exists k :: from <= k < |log| && log[k].worker == i
  }

  /** The (stream, tag name) pairs that some build needs. */
  function Required(cfg: seq<Build>): set<(string, string)> {
    (set i | 0 <= i < |cfg| :: (cfg[i].builder.stream, cfg[i].builder.tag.name)) +
    (set i | 0 <= i < |cfg| :: (cfg[i].runtime.stream, cfg[i].runtime.tag.name))
  }

  // ------------------------------------------------------------------ the invariant

  predicate Present(store: Store, need: Need) {
    HasTag(store, need.stream, need.tag.name)
  }

  predicate Aborted(w: Worker) {
    w.pc.Returned? && !w.pc.ok
  }

  predicate WorkerOk(b: Build, store: Store, log: seq<Write>, i: nat, w: Worker) {
    var need := NeedOf(b, w.half);
    && w.refusals <= |log| && w.seen <= |log| && w.callStart <= |log|
    && (w.half.Runtime? && !Aborted(w) ==> Present(store, b.builder))
    && (!Aborted(w) ==> (w.wrote <==> WroteSince(log, w.callStart, i)))
    && match w.pc
       case Fetch => true
       case Create => w.refusals <= w.seen && (need.stream in store ==> w.seen < |log|)
       case Update(None, tags) => w.refusals <= w.seen < |log|
       case Update(Some(v), tags) =>
         && w.refusals <= w.seen && need.stream in store && v <= store[need.stream].version
         && (v == store[need.stream].version ==> tags == store[need.stream].tags)
         && (v < store[need.stream].version ==> w.seen < |log|)
         && !HasName(tags, need.tag.name)
       case Returned(created, ok) =>
         && (ok ==> w.half.Runtime? && Present(store, b.runtime) && created == w.wrote)
         && (!ok ==> !created)
  }

  predicate WorkersOk(cfg: seq<Build>, s: State) {
    && |s.workers| == |cfg|
    && forall i :: 0 <= i < |cfg| ==> WorkerOk(cfg[i], s.store, s.log, i, s.workers[i])
  }

  predicate Logged(log: seq<Write>, stream: string, name: string) {
    exists k :: 0 <= k < |log| && log[k].stream == stream && log[k].tag.name == name
  }

  /** The tag itself is there, with the image it points to. */
  predicate Stored(store: Store, stream: string, tag: Tag) {
    stream in store && tag in store[stream].tags
  }

  lemma StoredKept(before: Store, after: Store, stream: string, tag: Tag)
    requires Keeps(before, after) && Stored(before, stream, tag)
    ensures Stored(after, stream, tag)
  {
    var k :| 0 <= k < |before[stream].tags| && before[stream].tags[k] == tag;
    assert after[stream].tags[k] == tag;
  }

  /** The write is what its controller's build asked for. */
  predicate Needed(cfg: seq<Build>, e: Write) {
    && e.worker < |cfg|
    && (Need(e.stream, e.tag) == cfg[e.worker].builder || Need(e.stream, e.tag) == cfg[e.worker].runtime)
  }

  /** The log explains the store: what is there was there at the start or was written, and nothing twice. */
  ghost predicate LogOk(cfg: seq<Build>, store0: Store, s: State) {
    && (forall n, t :: HasTag(s.store, n, t) <==> HasTag(store0, n, t) || Logged(s.log, n, t))
    && (forall k :: 0 <= k < |s.log| ==> !HasTag(store0, s.log[k].stream, s.log[k].tag.name))
    && (forall j, k :: 0 <= j < k < |s.log| ==>
          (s.log[j].stream, s.log[j].tag.name) != (s.log[k].stream, s.log[k].tag.name))
    && (forall k :: 0 <= k < |s.log| ==> Needed(cfg, s.log[k]) && Stored(s.store, s.log[k].stream, s.log[k].tag))
  }

  ghost predicate Inv(cfg: seq<Build>, store0: Store, s: State) {
    DistinctStore(s.store) && WorkersOk(cfg, s) && LogOk(cfg, store0, s)
  }

  // ------------------------------------------------------------------ preservation

  lemma LoggedAppend(log: seq<Write>, e: Write, n: string, t: string)
    ensures Logged(log + [e], n, t) <==> Logged(log, n, t) || (e.stream == n && e.tag.name == t)
  {
    var more := log + [e];
    if Logged(log, n, t) {
      var k :| 0 <= k < |log| && log[k].stream == n && log[k].tag.name == t;
      assert more[k].stream == n;
    }
    if e.stream == n && e.tag.name == t {
      assert more[|log|].stream == n;
    }
  }

  lemma WroteAppend(log: seq<Write>, e: Write, from: nat, i: nat)
    requires from <= |log|
    ensures WroteSince(log + [e], from, i) <==> WroteSince(log, from, i) || e.worker == i
  {
    var more := log + [e];
    if WroteSince(log, from, i) {
      var k :| from <= k < |log| && log[k].worker == i;
      assert more[k].worker == i;
    }
    if e.worker == i {
      assert more[|log|].worker == i;
    }
  }

  lemma PresentKept(before: Store, after: Store, need: Need)
    requires Keeps(before, after) && Present(before, need)
    ensures Present(after, need)
  {
    var tags := before[need.stream].tags;
    var k :| 0 <= k < |tags| && tags[k].name == need.tag.name;
    assert after[need.stream].tags[k].name == need.tag.name;
  }

  /** The write of an accepted request: a fresh tag goes to the end of its stream, nothing else moves. */
  predicate Appends(before: Store, after: Store, need: Need) {
    && after.Keys == before.Keys + {need.stream}
    && (forall n :: n in before && n != need.stream ==> after[n] == before[n])
    && (need.stream in before ==>
          && after[need.stream].version > before[need.stream].version
          && after[need.stream].tags == before[need.stream].tags + [need.tag])
    && (need.stream !in before ==> after[need.stream].tags == [need.tag])
    && !HasTag(before, need.stream, need.tag.name)
  }

  lemma AppendsStores(before: Store, after: Store, need: Need)
    requires Appends(before, after, need)
    ensures Stored(after, need.stream, need.tag)
  {
    var tags := after[need.stream].tags;
    assert tags[|tags| - 1] == need.tag;
  }

  lemma AppendsKeeps(before: Store, after: Store, need: Need)
    requires Appends(before, after, need) && DistinctStore(before)
    ensures Keeps(before, after) && Present(after, need) && DistinctStore(after)
    ensures forall n, t :: HasTag(after, n, t) <==> HasTag(before, n, t) || (n == need.stream && t == need.tag.name)
  {
    forall n, t
      ensures HasTag(after, n, t) <==> HasTag(before, n, t) || (n == need.stream && t == need.tag.name)
    {
      HasNameAppend(if need.stream in before then before[need.stream].tags else [], need.tag, t);
    }
    assert HasTag(after, need.stream, need.tag.name);
    forall n | n in after ensures DistinctNames(after[n].tags) {
      if n == need.stream && n in before {
        var tags := before[n].tags;
        assert forall k :: 0 <= k < |tags| ==> tags[k].name != need.tag.name;
      }
    }
  }

  /** What the other controllers know survives a write by controller `j`. */
  lemma BystanderOk(b: Build, before: Store, after: Store, log: seq<Write>, e: Write, need: Need, i: nat, w: Worker)
    requires Appends(before, after, need) && DistinctStore(before)
    requires WorkerOk(b, before, log, i, w) && e.worker != i
    ensures WorkerOk(b, after, log + [e], i, w)
  {
    AppendsKeeps(before, after, need);
    WroteAppend(log, e, w.callStart, i);
    if Present(before, b.builder) { PresentKept(before, after, b.builder); }
    if Present(before, b.runtime) { PresentKept(before, after, b.runtime); }
  }

  lemma WriterOk(b: Build, before: Store, after: Store, log: seq<Write>, e: Write, i: nat, w: Worker)
    requires Appends(before, after, NeedOf(b, w.half)) && DistinctStore(before)
    requires WorkerOk(b, before, log, i, w) && e.worker == i && !w.pc.Returned?
    ensures WorkerOk(b, after, log + [e], i, Advance(w, true)) && WorkerOk(b, after, log + [e], i, Abort(w))
  {
    AppendsKeeps(before, after, NeedOf(b, w.half));
    WroteAppend(log, e, w.callStart, i);
    if Present(before, b.builder) { PresentKept(before, after, b.builder); }
  }

  lemma NeededIsRequired(cfg: seq<Build>, e: Write)
    requires Needed(cfg, e)
    ensures (e.stream, e.tag.name) in Required(cfg)
  {
    var b := cfg[e.worker];
    assert (b.builder.stream, b.builder.tag.name) in Required(cfg);
    assert (b.runtime.stream, b.runtime.tag.name) in Required(cfg);
  }

  lemma LogOkPut(cfg: seq<Build>, store0: Store, s: State, t: State, i: nat, need: Need)
    requires LogOk(cfg, store0, s) && DistinctStore(s.store)
    requires Appends(s.store, t.store, need)
    requires t.log == s.log + [Write(i, need.stream, need.tag)]
    requires Needed(cfg, Write(i, need.stream, need.tag))
    ensures LogOk(cfg, store0, t)
  {
    AppendsKeeps(s.store, t.store, need);
    assert HasTag(s.store, need.stream, need.tag.name) <==>
           HasTag(store0, need.stream, need.tag.name) || Logged(s.log, need.stream, need.tag.name);
    forall n, tag ensures HasTag(t.store, n, tag) <==> HasTag(store0, n, tag) || Logged(t.log, n, tag) {
      LoggedAppend(s.log, Write(i, need.stream, need.tag), n, tag);
    }
    forall k | 0 <= k < |s.log| ensures Stored(t.store, s.log[k].stream, s.log[k].tag) {
      StoredKept(s.store, t.store, s.log[k].stream, s.log[k].tag);
    }
    AppendsStores(s.store, t.store, need);
  }

  /** A step that writes: everything the invariant says is re-established. */
  lemma PutOk(cfg: seq<Build>, store0: Store, s: State, i: nat, stored: Stream, after: Worker)
    requires Inv(cfg, store0, s) && i < |cfg| && !s.workers[i].pc.Returned?
    requires var need := NeedOf(cfg[i], s.workers[i].half);
             Appends(s.store, s.store[need.stream := stored], need)
    requires after == Advance(s.workers[i], true) || after == Abort(s.workers[i])
    ensures Inv(cfg, store0, Put(s, i, after, NeedOf(cfg[i], s.workers[i].half), stored))
  {
    var w := s.workers[i];
    var need := NeedOf(cfg[i], w.half);
    var t := Put(s, i, after, need, stored);
    AppendsKeeps(s.store, t.store, need);
    LogOkPut(cfg, store0, s, t, i, need);
    var e := Write(i, need.stream, need.tag);
    forall j | 0 <= j < |cfg| ensures WorkerOk(cfg[j], t.store, t.log, j, t.workers[j]) {
      if j == i {
        WriterOk(cfg[i], s.store, t.store, s.log, e, i, w);
      } else {
        BystanderOk(cfg[j], s.store, t.store, s.log, e, need, j, s.workers[j]);
      }
    }
  }

  lemma SendOk(cfg: seq<Build>, store0: Store, s: State, i: nat)
    requires Inv(cfg, store0, s) && i < |cfg|
    ensures Inv(cfg, store0, Send(RefusesUnversioned, cfg, s, i))
    ensures Keeps(s.store, Send(RefusesUnversioned, cfg, s, i).store)
  {
    var w := s.workers[i];
    var need := NeedOf(cfg[i], w.half);
    var t := Send(RefusesUnversioned, cfg, s, i);
    match w.pc
    case Fetch =>
      assert WorkerOk(cfg[i], t.store, t.log, i, t.workers[i]);
    case Create =>
      if need.stream !in s.store {
        PutOk(cfg, store0, s, i, Stream(1, [need.tag]), Advance(w, true));
      } else {
        assert WorkerOk(cfg[i], t.store, t.log, i, t.workers[i]);
      }
    case Update(version, tags) =>
      if Accepts(RefusesUnversioned, s.store, need.stream, version) {
        PutOk(cfg, store0, s, i, Stream(s.store[need.stream].version + 1, tags + [need.tag]), Advance(w, true));
      } else {
        assert WorkerOk(cfg[i], t.store, t.log, i, t.workers[i]);
      }
    case Returned(_, _) =>
  }

  lemma LostReplyOk(cfg: seq<Build>, store0: Store, s: State, i: nat)
    requires Inv(cfg, store0, s) && i < |cfg| && !s.workers[i].pc.Returned?
    ensures Inv(cfg, store0, Next(RefusesUnversioned, cfg, s, LostReply(i)))
    ensures Keeps(s.store, Next(RefusesUnversioned, cfg, s, LostReply(i)).store)
  {
    var w := s.workers[i];
    var need := NeedOf(cfg[i], w.half);
    var t := Next(RefusesUnversioned, cfg, s, LostReply(i));
    if t.log == s.log {
      assert t.store == s.store;
      assert WorkerOk(cfg[i], t.store, t.log, i, t.workers[i]);
    } else {
      var stored := t.store[need.stream];
      assert Appends(s.store, s.store[need.stream := stored], need);
      PutOk(cfg, store0, s, i, stored, Abort(w));
      assert t == Put(s, i, Abort(w), need, stored);
      AppendsKeeps(s.store, t.store, need);
    }
  }

  lemma NextOk(cfg: seq<Build>, store0: Store, s: State, a: Action)
    requires Inv(cfg, store0, s)
    ensures Inv(cfg, store0, Next(RefusesUnversioned, cfg, s, a))
    ensures Keeps(s.store, Next(RefusesUnversioned, cfg, s, a).store)
  {
    if a.worker < |cfg| {
      var t := Next(RefusesUnversioned, cfg, s, a);
      match a
      case Request(i) => SendOk(cfg, store0, s, i);
      case Fault(i) => assert WorkerOk(cfg[i], t.store, t.log, i, t.workers[i]);
      case LostReply(i) => if !s.workers[i].pc.Returned? { LostReplyOk(cfg, store0, s, i); }
      case Retry(i) => assert WorkerOk(cfg[i], t.store, t.log, i, t.workers[i]);
    }
  }

  lemma {:induction false} ExecOk(cfg: seq<Build>, store0: Store, s: State, run: seq<Action>)
    requires Inv(cfg, store0, s)
    ensures Inv(cfg, store0, Exec(RefusesUnversioned, cfg, s, run))
    ensures Keeps(s.store, Exec(RefusesUnversioned, cfg, s, run).store)
    decreases |run|
  {
    if run != [] {
      NextOk(cfg, store0, s, run[0]);
      ExecOk(cfg, store0, Next(RefusesUnversioned, cfg, s, run[0]), run[1..]);
    }
  }

  lemma InitOk(cfg: seq<Build>, s: State)
    requires Init(cfg, s)
    ensures Inv(cfg, s.store, s)
  {
  }

  lemma {:induction false} ExecConcat(server: Server, cfg: seq<Build>, s: State, first: seq<Action>, rest: seq<Action>)
    requires |s.workers| == |cfg|
    ensures Exec(server, cfg, s, first + rest) == Exec(server, cfg, Exec(server, cfg, s, first), rest)
    decreases |first|
  {
    if first == [] {
      assert first + rest == rest;
    } else {
      assert (first + rest)[1..] == first[1..] + rest;
      ExecConcat(server, cfg, Next(server, cfg, s, first[0]), first[1..], rest);
    }
  }

  lemma LogBounded(log: seq<Write>, pairs: set<(string, string)>)
    requires forall j, k :: 0 <= j < k < |log| ==>
               (log[j].stream, log[j].tag.name) != (log[k].stream, log[k].tag.name)
    requires forall k :: 0 <= k < |log| ==> (log[k].stream, log[k].tag.name) in pairs
    ensures |log| <= |pairs|
  {
    if log != [] {
      var last := log[|log| - 1];
      LogBounded(log[..|log| - 1], pairs - {(last.stream, last.tag.name)});
    }
  }

  // ------------------------------------------------------------------ the theorems

  /** Between any two moments of a run, no stream disappears and no tag is lost or moved. */
  lemma NoTagLost(cfg: seq<Build>, s0: State, first: seq<Action>, rest: seq<Action>)
    requires Init(cfg, s0)
    ensures var mid := Exec(RefusesUnversioned, cfg, s0, first);
            var end := Exec(RefusesUnversioned, cfg, s0, first + rest);
            Keeps(mid.store, end.store) && DistinctStore(end.store)
  {
    InitOk(cfg, s0);
    ExecOk(cfg, s0.store, s0, first);
    ExecConcat(RefusesUnversioned, cfg, s0, first, rest);
    ExecOk(cfg, s0.store, Exec(RefusesUnversioned, cfg, s0, first), rest);
  }

  /** A controller that returned without error has both tags in place, and `created` tells whether it wrote. */
  lemma ReturnIsTruthful(cfg: seq<Build>, s0: State, run: seq<Action>, i: nat)
    requires Init(cfg, s0) && i < |cfg|
    ensures var s := Exec(RefusesUnversioned, cfg, s0, run);
            var w := s.workers[i];
            && (w.pc.Returned? && w.pc.ok ==>
                  && Present(s.store, cfg[i].builder) && Present(s.store, cfg[i].runtime)
                  && (w.pc.created <==> WroteSince(s.log, w.callStart, i)))
            && (w.pc.Returned? && !w.pc.ok ==> !w.pc.created)
  {
    InitOk(cfg, s0);
    ExecOk(cfg, s0.store, s0, run);
  }

  /**
   Conservation of writes: the tags of the final store are those of the first store plus those
   logged, each logged pair was needed and missing and is logged once, so all controllers together
   write at most once per required pair, and each of them is refused at most that often.
   */
  lemma WritesBounded(cfg: seq<Build>, s0: State, run: seq<Action>)
    requires Init(cfg, s0)
    ensures var s := Exec(RefusesUnversioned, cfg, s0, run);
            && (forall n, t :: HasTag(s.store, n, t) <==> HasTag(s0.store, n, t) || Logged(s.log, n, t))
            && (forall k :: 0 <= k < |s.log| ==> !HasTag(s0.store, s.log[k].stream, s.log[k].tag.name))
            && (forall k :: 0 <= k < |s.log| ==>
                  Needed(cfg, s.log[k]) && Stored(s.store, s.log[k].stream, s.log[k].tag))
            && |s.log| <= |Required(cfg)|
            && (forall i :: 0 <= i < |cfg| ==> s.workers[i].refusals <= |Required(cfg)|)
  {
    InitOk(cfg, s0);
    ExecOk(cfg, s0.store, s0, run);
    var s := Exec(RefusesUnversioned, cfg, s0, run);
    forall k | 0 <= k < |s.log| ensures (s.log[k].stream, s.log[k].tag.name) in Required(cfg) {
      NeededIsRequired(cfg, s.log[k]);
    }
    LogBounded(s.log, Required(cfg));
    forall i | 0 <= i < |cfg| ensures s.workers[i].refusals <= |Required(cfg)| {
      assert WorkerOk(cfg[i], s.store, s.log, i, s.workers[i]);
    }
  }

  /** An update is refused only when another write landed after the refused controller's fetch. */
  lemma RefusalMeansProgress(cfg: seq<Build>, s0: State, run: seq<Action>, i: nat)
    requires Init(cfg, s0) && i < |cfg|
    ensures var s := Exec(RefusesUnversioned, cfg, s0, run);
            var t := Send(RefusesUnversioned, cfg, s, i);
            t.workers[i].refusals > s.workers[i].refusals ==> s.workers[i].seen < |s.log| == |t.log|
  {
    InitOk(cfg, s0);
    ExecOk(cfg, s0.store, s0, run);
    var s := Exec(RefusesUnversioned, cfg, s0, run);
    assert WorkerOk(cfg[i], s.store, s.log, i, s.workers[i]);
  }

  predicate LosesNothing(server: Server, cfg: seq<Build>, s0: State, run: seq<Action>)
    requires |s0.workers| == |cfg|
  {
    Keeps(s0.store, Exec(server, cfg, s0, run).store)
  }

  /** Two controllers and one stream, as two builds with different image versions give. */
  function TwoBuilds(): seq<Build> {
    var v1 := Need("kogito-s2i-builder", Tag("1.0", None, false));
    var v2 := Need("kogito-s2i-builder", Tag("2.0", None, false));
    [Build(v1, v1), Build(v2, v2)]
  }

  function AtStart(n: nat): State {
    State(map[], seq(n, _ => Worker(Builder, Fetch, false, 0, 0, 0)), [])
  }

  /**
   The run that needs the server's help: both fetch nothing, the first creates the stream, the second
   is told AlreadyExists and sends its local object, which has no tags and no version.
   */
  lemma BlindUpdateDropsTag()
    ensures var s := Exec(AcceptsUnversioned, TwoBuilds(), AtStart(2), [Request(0), Request(1), Request(0)]);
            var t := Exec(AcceptsUnversioned, TwoBuilds(), s, [Request(1), Request(1)]);
            HasTag(s.store, "kogito-s2i-builder", "1.0") && !HasTag(t.store, "kogito-s2i-builder", "1.0")
  {
    var cfg, sv, name := TwoBuilds(), AcceptsUnversioned, "kogito-s2i-builder";
    var s0 := AtStart(2);
    var s1 := Next(sv, cfg, s0, Request(0));
    var s2 := Next(sv, cfg, s1, Request(1));
    var s3 := Next(sv, cfg, s2, Request(0));
    assert s3.store == map[name := Stream(1, [Tag("1.0", None, false)])];
    assert s3.store[name].tags[0].name == "1.0";
    var s4 := Next(sv, cfg, s3, Request(1));
    var s5 := Next(sv, cfg, s4, Request(1));
    assert s5.store[name].tags == [] + [Tag("2.0", None, false)] == [Tag("2.0", None, false)];
    assert "1.0" != "2.0" by { assert "1.0"[0] != "2.0"[0]; }
    var run := [Request(0), Request(1), Request(0)];
    assert run[1..] == [Request(1), Request(0)] && run[1..][1..] == [Request(0)] && run[1..][1..][1..] == [];
    assert Exec(sv, cfg, s0, run) == s3 by {
      assert Exec(sv, cfg, s2, [Request(0)]) == s3;
      assert Exec(sv, cfg, s1, [Request(1), Request(0)]) == s3;
    }
    var more := [Request(1), Request(1)];
    assert more[1..] == [Request(1)] && more[1..][1..] == [];
    assert Exec(sv, cfg, s3, more) == s5 by {
      assert Exec(sv, cfg, s4, [Request(1)]) == s5;
    }
  }

  /** No tag is ever lost, whatever the builds and the schedule, exactly when the server refuses such updates. */
  lemma NoTagLostIffServerChecksVersions(server: Server)
    ensures (forall cfg: seq<Build>, s0: State, first: seq<Action>, rest: seq<Action> | Init(cfg, s0) ::
               LosesNothing(server, cfg, Exec(server, cfg, s0, first), rest))
            <==> server == RefusesUnversioned
  {
    if server == RefusesUnversioned {
      forall cfg: seq<Build>, s0: State, first: seq<Action>, rest: seq<Action> | Init(cfg, s0)
        ensures LosesNothing(server, cfg, Exec(server, cfg, s0, first), rest)
      {
        NoTagLost(cfg, s0, first, rest);
        ExecConcat(server, cfg, s0, first, rest);
      }
    } else {
      var cfg, s0 := TwoBuilds(), AtStart(2);
      var first, rest := [Request(0), Request(1), Request(0)], [Request(1), Request(1)];
      BlindUpdateDropsTag();
      assert Init(cfg, s0);
      var s := Exec(server, cfg, s0, first);
      var need := Need("kogito-s2i-builder", Tag("1.0", None, false));
      if LosesNothing(server, cfg, s, rest) {
        PresentKept(s.store, Exec(server, cfg, s, rest).store, need);
        assert false;
      }
      assert !LosesNothing(server, cfg, Exec(server, cfg, s0, first), rest);
    }
  }

  // ------------------------------------------------------------------ when the flag can be trusted

  /** Once controller `i` has returned, with or without an error, `created` tells whether it wrote. */
  predicate FlagTruthful(s: State, i: nat) {
    i < |s.workers| &&
    var w := s.workers[i];
    w.pc.Returned? ==> (w.pc.created <==> WroteSince(s.log, w.callStart, i))
  }

  lemma ExecThree(server: Server, cfg: seq<Build>, s: State, a: Action, b: Action, c: Action)
    requires |s.workers| == |cfg|
    ensures Exec(server, cfg, s, [a, b, c]) == Next(server, cfg, Next(server, cfg, Next(server, cfg, s, a), b), c)
  {
    var s1 := Next(server, cfg, s, a);
    var s2 := Next(server, cfg, s1, b);
    assert [a, b, c][1..] == [b, c] && [b, c][1..] == [c] && [c][1..] == [];
    assert Exec(server, cfg, s2, [c]) == Next(server, cfg, s2, c);
    assert Exec(server, cfg, s1, [b, c]) == Exec(server, cfg, s2, [c]);
  }

  /** The builder tag is written, then the runtime half fails. */
  lemma BuilderWrittenThenFault(cfg: seq<Build>, s0: State, i: nat)
    requires Init(cfg, s0) && i < |cfg| && !Present(s0.store, cfg[i].builder)
    ensures !FlagTruthful(Exec(RefusesUnversioned, cfg, s0, [Request(i), Request(i), Fault(i)]), i)
  {
    ExecThree(RefusesUnversioned, cfg, s0, Request(i), Request(i), Fault(i));
    var s1 := Next(RefusesUnversioned, cfg, s0, Request(i));
    var s2 := Next(RefusesUnversioned, cfg, s1, Request(i));
    assert s2.log[0].worker == i && s2.workers[i].callStart == 0 && !s2.workers[i].pc.Returned?;
  }

  /** The builder tag is there; the runtime tag is written, but the reply is lost. */
  lemma RuntimeWrittenUnheard(cfg: seq<Build>, s0: State, i: nat)
    requires Init(cfg, s0) && i < |cfg| && Present(s0.store, cfg[i].builder) && !Present(s0.store, cfg[i].runtime)
    ensures !FlagTruthful(Exec(RefusesUnversioned, cfg, s0, [Request(i), Request(i), LostReply(i)]), i)
  {
    ExecThree(RefusesUnversioned, cfg, s0, Request(i), Request(i), LostReply(i));
    var s1 := Next(RefusesUnversioned, cfg, s0, Request(i));
    assert s1.store == s0.store && s1.workers[i].half == Runtime && s1.workers[i].pc == Fetch;
    var s2 := Next(RefusesUnversioned, cfg, s1, Request(i));
    var s3 := Next(RefusesUnversioned, cfg, s2, LostReply(i));
    assert s3.log[0].worker == i && s3.workers[i].callStart == 0;
  }

  /** A controller both of whose tags were there from the start never writes. */
  lemma NothingToWrite(cfg: seq<Build>, s0: State, run: seq<Action>, i: nat)
    requires Init(cfg, s0) && i < |cfg| && Present(s0.store, cfg[i].builder) && Present(s0.store, cfg[i].runtime)
    ensures FlagTruthful(Exec(RefusesUnversioned, cfg, s0, run), i)
  {
    InitOk(cfg, s0);
    ExecOk(cfg, s0.store, s0, run);
    var s := Exec(RefusesUnversioned, cfg, s0, run);
    var w := s.workers[i];
    assert WorkerOk(cfg[i], s.store, s.log, i, w);
    forall k | 0 <= k < |s.log| ensures s.log[k].worker != i {
      assert Needed(cfg, s.log[k]) && !HasTag(s0.store, s.log[k].stream, s.log[k].tag.name);
    }
  }

  /** `created` can be trusted in every run, whatever fails, exactly when both required tags are there already. */
  lemma FlagTruthfulIff(cfg: seq<Build>, s0: State, i: nat)
    requires Init(cfg, s0) && i < |cfg|
    ensures (forall run: seq<Action> :: FlagTruthful(Exec(RefusesUnversioned, cfg, s0, run), i))
            <==> Present(s0.store, cfg[i].builder) && Present(s0.store, cfg[i].runtime)
  {
    if !Present(s0.store, cfg[i].builder) {
      BuilderWrittenThenFault(cfg, s0, i);
    } else if !Present(s0.store, cfg[i].runtime) {
      RuntimeWrittenUnheard(cfg, s0, i);
    } else {
      forall run: seq<Action> ensures FlagTruthful(Exec(RefusesUnversioned, cfg, s0, run), i) {
        NothingToWrite(cfg, s0, run, i);
      }
    }
  }

  /** With the builder tag there, controller `i` writes only as its last request. */
  predicate WritesLast(s: State, i: nat) {
    i < |s.workers| &&
    var w := s.workers[i];
    && (w.half.Builder? ==> w.pc.Fetch? || w.pc.Returned?)
    && (WroteSince(s.log, w.callStart, i) ==> w.pc == Returned(true, true))
  }

  lemma WritesLastOther(cfg: seq<Build>, s: State, a: Action, i: nat)
    requires |s.workers| == |cfg| && i < |cfg| && WritesLast(s, i) && a.worker != i
    requires s.workers[i].callStart <= |s.log|
    ensures WritesLast(Next(RefusesUnversioned, cfg, s, a), i)
  {
    var t := Next(RefusesUnversioned, cfg, s, a);
    if t.log != s.log {
      assert t.log == s.log + [t.log[|s.log|]] && t.log[|s.log|].worker == a.worker;
      WroteAppend(s.log, t.log[|s.log|], s.workers[i].callStart, i);
    }
  }

  lemma WritesLastNext(cfg: seq<Build>, store0: Store, s: State, a: Action, i: nat)
    requires Inv(cfg, store0, s) && i < |cfg| && Present(s.store, cfg[i].builder)
    requires WritesLast(s, i) && a != LostReply(i)
    ensures WritesLast(Next(RefusesUnversioned, cfg, s, a), i)
  {
    var t := Next(RefusesUnversioned, cfg, s, a);
    var w := s.workers[i];
    assert WorkerOk(cfg[i], s.store, s.log, i, w);
    if a.worker != i {
      WritesLastOther(cfg, s, a, i);
    } else {
      if t.log != s.log {
        assert t.log == s.log + [t.log[|s.log|]] && t.log[|s.log|].worker == i;
        WroteAppend(s.log, t.log[|s.log|], w.callStart, i);
      }
    }
  }

  lemma {:induction false} WritesLastExec(cfg: seq<Build>, store0: Store, s: State, run: seq<Action>, i: nat)
    requires Inv(cfg, store0, s) && i < |cfg| && Present(s.store, cfg[i].builder)
    requires WritesLast(s, i) && LostReply(i) !in run
    ensures WritesLast(Exec(RefusesUnversioned, cfg, s, run), i)
    decreases |run|
  {
    if run != [] {
      var next := Next(RefusesUnversioned, cfg, s, run[0]);
      NextOk(cfg, store0, s, run[0]);
      PresentKept(s.store, next.store, cfg[i].builder);
      WritesLastNext(cfg, store0, s, run[0], i);
      WritesLastExec(cfg, store0, next, run[1..], i);
    }
  }

  /** If the controller's own replies always arrive, the builder tag alone decides. */
  lemma FlagTruthfulIffRepliesArrive(cfg: seq<Build>, s0: State, i: nat)
    requires Init(cfg, s0) && i < |cfg|
    ensures (forall run: seq<Action> | LostReply(i) !in run ::
               FlagTruthful(Exec(RefusesUnversioned, cfg, s0, run), i))
            <==> Present(s0.store, cfg[i].builder)
  {
    if Present(s0.store, cfg[i].builder) {
      forall run: seq<Action> | LostReply(i) !in run
        ensures FlagTruthful(Exec(RefusesUnversioned, cfg, s0, run), i)
      {
        InitOk(cfg, s0);
        ExecOk(cfg, s0.store, s0, run);
        WritesLastExec(cfg, s0.store, s0, run, i);
        var s := Exec(RefusesUnversioned, cfg, s0, run);
        assert WorkerOk(cfg[i], s.store, s.log, i, s.workers[i]);
      }
    } else {
      BuilderWrittenThenFault(cfg, s0, i);
    }
  }

  // ------------------------------------------------------------------ one call, seen from inside

  /** All that anyone may do to the store: streams stay, versions rise, and a version stands for one content. */
  predicate Evolves(before: Store, after: Store) {
    && Keeps(before, after)
    && (forall n :: n in before ==>
          && before[n].version <= after[n].version
          && (before[n].version == after[n].version ==> after[n] == before[n]))
    && (DistinctStore(before) ==> DistinctStore(after))
  }

  datatype Reply = Accepted | AlreadyExists | Conflict | Unavailable

  /** The API server as one caller meets it; `writes` counts this caller's accepted writes. */
  class ApiServer {
    var store: Store
    ghost var writes: nat

    /** Anything the other clients did meanwhile: callers learn only that the store evolved. */
    method Interleave()
      modifies this`store
      ensures Evolves(old(store), store)
    {
    }

    method Get(name: string) returns (reply: Reply, found: Option<Stream>)
      ensures reply.Accepted? || reply.Unavailable?
      ensures reply.Accepted? ==> found == if name in store then Some(store[name]) else None
    {
      found := if name in store then Some(store[name]) else None;
      if * { reply := Unavailable; } else { reply := Accepted; }
    }

    /** `Unavailable` leaves open whether the server did it; `writes` tells. */
    method Post(need: Need) returns (reply: Reply)
      modifies this
      ensures !reply.Conflict? && old(writes) <= writes <= old(writes) + 1
      ensures reply.Accepted? ==> writes > old(writes)
      ensures reply.AlreadyExists? ==> writes == old(writes) && need.stream in store
      ensures writes > old(writes) ==>
                need.stream !in old(store) && store == old(store)[need.stream := Stream(1, [need.tag])]
      ensures writes == old(writes) ==> store == old(store)
    {
      if * { return Unavailable; }
      if need.stream in store { return AlreadyExists; }
      store, writes := store[need.stream := Stream(1, [need.tag])], writes + 1;
      if * { reply := Unavailable; } else { reply := Accepted; }
    }

    method Replace(name: string, version: Option<nat>, tags: seq<Tag>) returns (reply: Reply)
      modifies this
      ensures old(writes) <= writes <= old(writes) + 1
      ensures reply.Accepted? ==> writes > old(writes)
      ensures writes > old(writes) ==>
                && (reply.Accepted? || reply.Unavailable?)
                && name in old(store) && version == Some(old(store)[name].version)
                && store == old(store)[name := Stream(old(store)[name].version + 1, tags)]
      ensures writes == old(writes) ==> store == old(store)
    {
      if * { return Unavailable; }
      if name !in store || version != Some(store[name].version) { return Conflict; }
      store, writes := store[name := Stream(store[name].version + 1, tags)], writes + 1;
      if * { reply := Unavailable; } else { reply := Accepted; }
    }
  }

  lemma EvolvesTransitive(a: Store, b: Store, c: Store)
    requires Evolves(a, b) && Evolves(b, c)
    ensures Evolves(a, c)
  {
  }

  lemma AppendsEvolves(before: Store, after: Store, need: Need)
    requires Appends(before, after, need)
    ensures Evolves(before, after) && Present(after, need)
  {
    if DistinctStore(before) { AppendsKeeps(before, after, need); }
    HasNameAppend(if need.stream in before then before[need.stream].tags else [], need.tag, need.tag.name);
  }

  /** The creating request of the call, with interference after it. */
  method PostRequired(api: ApiServer, need: Need) returns (reply: Reply)
    modifies api
    ensures Evolves(old(api.store), api.store)
    ensures !reply.Conflict? && old(api.writes) <= api.writes <= old(api.writes) + 1
    ensures reply.Accepted? ==> api.writes > old(api.writes)
    ensures reply.AlreadyExists? ==> api.writes == old(api.writes)
    ensures api.writes > old(api.writes) ==> Present(api.store, need) && Stored(api.store, need.stream, need.tag)
  {
    reply := api.Post(need);
    ghost var posted, wrote := api.store, api.writes > old(api.writes);
    if wrote {
      AppendsEvolves(old(api.store), posted, need);
      AppendsStores(old(api.store), posted, need);
    }
    api.Interleave();
    EvolvesTransitive(old(api.store), posted, api.store);
    if wrote {
      PresentKept(posted, api.store, need);
      StoredKept(posted, api.store, need.stream, need.tag);
    }
  }

  /** The updating request of the call: the fetched copy with the tag appended. */
  method ReplaceRequired(api: ApiServer, need: Need, ghost fetched: Store, version: Option<nat>, tags: seq<Tag>)
    returns (reply: Reply)
    requires Evolves(fetched, api.store)
    requires version.Some? ==>
               && need.stream in fetched && fetched[need.stream] == Stream(version.value, tags)
               && !HasName(tags, need.tag.name)
    modifies api
    ensures Evolves(old(api.store), api.store)
    ensures old(api.writes) <= api.writes <= old(api.writes) + 1
    ensures reply.Accepted? ==> api.writes > old(api.writes)
    ensures api.writes > old(api.writes) ==> Present(api.store, need) && Stored(api.store, need.stream, need.tag)
  {
    reply := api.Replace(need.stream, version, tags + [need.tag]);
    if api.writes > old(api.writes) {
      AppendsEvolves(old(api.store), api.store, need);
      AppendsStores(old(api.store), api.store, need);
    }
  }

  /**
   createRequiredKogitoImageStreamTag in the midst of other clients.  It relies on them only to let
   the store evolve and keeps to that itself.  It writes at most once; it reports success only with the
   tag in place and then `created` says whether it wrote; an error leaves that open, but what was
   written is in place even then.
   */
  method CreateRequiredImageStreamTag(api: ApiServer, need: Need) returns (created: bool, ok: bool)
    modifies api
    ensures Evolves(old(api.store), api.store)
    ensures old(api.writes) <= api.writes <= old(api.writes) + 1
    ensures ok || api.writes > old(api.writes) ==> Present(api.store, need)
    ensures api.writes > old(api.writes) ==> Stored(api.store, need.stream, need.tag)
    ensures ok ==> (created <==> api.writes > old(api.writes))
    ensures created ==> ok
  {
    created, ok := false, false;
    var version: Option<nat>, tags: seq<Tag> := None, [];
    var reply, found := api.Get(need.stream);
    if reply != Accepted { return; }
    var streamExists, tagExists := found.Some?, false;
    if streamExists {
      version, tags := Some(found.value.version), found.value.tags;
      tagExists := FindTag(tags, need.tag.name);
    }
    ghost var fetched := api.store;
    api.Interleave();
    if tagExists { PresentKept(fetched, api.store, need); }
    if !tagExists && !streamExists {
      ghost var before := api.store;
      reply := PostRequired(api, need);
      EvolvesTransitive(fetched, before, api.store);
      if reply == AlreadyExists {
        streamExists := true;
      } else if reply == Accepted {
        created := true;
      } else {
        return;
      }
    }
    if !tagExists && streamExists {
      ghost var before := api.store;
      reply := ReplaceRequired(api, need, fetched, version, tags);
      EvolvesTransitive(fetched, before, api.store);
      if reply != Accepted { return; }
      created := true;
    }
    ok := true;
  }
}
