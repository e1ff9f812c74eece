/** Restarting a build (core/kogitobuild/trigger.go). */
module BuildRestart {
  import opened Options

  // StartNewBuild cancels the running build of a BuildConfig, waits until it is cancelled, then starts a new
  // one.  It is one controller making one request after another; in between, builds make progress, image
  // changes create builds by themselves, other clients touch or delete them, and any request may fail.

  datatype Phase = New | Pending | Running | Complete | Failed | Error | Cancelled

  predicate Active(p: Phase) {
    p.New? || p.Pending? || p.Running?
  }

  /** A build of the BuildConfig; `cancel` is Status.Cancelled, the request to stop it. */
  datatype Build = Build(phase: Phase, cancel: bool, version: nat)

  type Builds = map<nat, Build>

  /** Where StartNewBuild stands; `listed` records which builds were active when it listed them. */
  datatype Pc =
    | Idle
    | Cancelling(id: nat, version: nat, listed: set<nat>)
    | Waiting(id: nat, listed: set<nat>)
    | Starting(observed: Option<nat>, listed: set<nat>)

  /** `changed` records the builds that image changes have created since the last listing. */
  datatype State = State(builds: Builds, next: nat, pc: Pc, changed: set<nat>)

  datatype Step =
    | List(first: Option<nat>)        // list the builds; `first` is the first active one in the list
    | CancelUpdate                    // set the flag, or fetch again after a conflict
    | Observe                         // look whether the build is cancelled
    | Instantiate                     // start the new build
    | Fail                            // any request fails or times out: StartNewBuild returns an error
    | Progress(id: nat, to: Phase)    // a build moves on
    | Touch(id: nat)                  // another client writes a build
    | Prune(id: nat)                  // a build is deleted
    | ImageChange                     // a trigger of the BuildConfig creates a build

  predicate Moves(b: Build, to: Phase) {
    match to
    case New => false
    case Pending => b.phase.New?
    case Running => b.phase.New? || b.phase.Pending?
    case Complete => b.phase.Running?
    case Failed => Active(b.phase)
    case Error => Active(b.phase)
    case Cancelled => Active(b.phase) && b.cancel
  }

  /** A build that was asked to stop is active exactly as long as it can still move; from a finished phase none does. */
  lemma ActiveIffMoves(b: Build)
    ensures b.cancel ==> (Active(b.phase) <==> exists to :: Moves(b, to))
    ensures b.phase in {Complete, Failed, Error, Cancelled} ==> forall to :: !Moves(b, to)
    ensures Active(b.phase) <==> b.phase in {New, Pending, Running}
    ensures Moves(b, Cancelled) ==> b.cancel
  {
    if b.cancel && Active(b.phase) { assert Moves(b, Cancelled); }
  }

  function ActiveIds(builds: Builds): set<nat> {
    set i | i in builds && Active(builds[i].phase)
  }

  predicate Enabled(s: State, step: Step) {
    match step
    case List(None) => s.pc.Idle? && ActiveIds(s.builds) == {}
    case List(Some(i)) => s.pc.Idle? && i in ActiveIds(s.builds)
    case CancelUpdate => s.pc.Cancelling?
    case Observe => s.pc.Waiting?
    case Instantiate => s.pc.Starting?
    case Fail => !s.pc.Idle?
    case Progress(i, to) => i in s.builds && Moves(s.builds[i], to)
    case Touch(i) => i in s.builds
    case Prune(i) => i in s.builds
    case ImageChange => true
  }

  function Bump(b: Build): Build {
    b.(version := b.version + 1)
  }

  function Next(s: State, step: Step): State
    requires Enabled(s, step)
  {
    match step
    case List(None) => s.(pc := Starting(None, {}), changed := {})
    case List(Some(i)) => s.(pc := Cancelling(i, s.builds[i].version, ActiveIds(s.builds)), changed := {})
    case CancelUpdate =>
      var i := s.pc.id;
      if i !in s.builds then s.(pc := Idle)
      else if s.builds[i].version != s.pc.version
      // conflict: someone just updated the build, fetch it and try again
      then s.(pc := s.pc.(version := s.builds[i].version))
      else s.(builds := s.builds[i := Bump(s.builds[i]).(cancel := true)], pc := Waiting(i, s.pc.listed))
    case Observe =>
      var i := s.pc.id;
      if i !in s.builds then s.(pc := Idle)
      else if s.builds[i].phase.Cancelled? then s.(pc := Starting(Some(i), s.pc.listed))
      else s
    case Instantiate =>
      s.(builds := s.builds[s.next := Build(New, false, 1)], next := s.next + 1, pc := Idle)
    case Fail => s.(pc := Idle)
    case Progress(i, to) => s.(builds := s.builds[i := Bump(s.builds[i]).(phase := to)])
    case Touch(i) => s.(builds := s.builds[i := Bump(s.builds[i])])
    case Prune(i) => s.(builds := s.builds - {i})
    case ImageChange =>
      s.(builds := s.builds[s.next := Build(New, false, 1)], next := s.next + 1, changed := s.changed + {s.next})
  }

  predicate IsRun(s: State, run: seq<Step>)
    decreases |run|
  {
    run == [] || (Enabled(s, run[0]) && IsRun(Next(s, run[0]), run[1..]))
  }

  function After(s: State, run: seq<Step>): State
    requires IsRun(s, run)
    decreases |run|
  {
    if run == [] then s else After(Next(s, run[0]), run[1..])
  }

  /** Build numbers are not used twice. */
  predicate Numbered(s: State) {
    forall i :: i in s.builds ==> i < s.next
  }

  // ------------------------------------------------------------------ the invariant

  function Max(a: nat, b: nat): nat {
    if a < b then b else a
  }

  /** What may be active while a restart is under way: what was listed, and what image changes created since. */
  predicate Expected(s: State, ids: set<nat>, bound: nat) {
    && ActiveIds(s.builds) <= ids && |ids| <= bound
    && forall x :: x in ids ==> x < s.next
  }

  /**
   While a restart is under way only image changes make builds active; when the new build is about to be
   started, one of those listed is known to be cancelled, or none was listed.
   */
  predicate Inv(s: State, bound: nat) {
    && Numbered(s) && bound >= 1
    && match s.pc
       case Idle => |ActiveIds(s.builds)| <= bound
       case Cancelling(i, _, listed) => i in listed && Expected(s, listed + s.changed, bound)
       case Waiting(i, listed) => i in listed && Expected(s, listed + s.changed, bound)
       case Starting(None, listed) => listed == {} && Expected(s, s.changed, bound - 1)
       case Starting(Some(i), listed) =>
         && i in listed && Expected(s, listed + s.changed, bound)
         && (i in s.builds ==> s.builds[i].phase.Cancelled?)
  }

  lemma SubsetSize(a: set<nat>, b: set<nat>)
    requires a <= b
    ensures |a| <= |b|
  {
    if a != {} {
      var x :| x in a;
      SubsetSize(a - {x}, b - {x});
    }
  }

  lemma InvBoundsActive(s: State, bound: nat)
    requires Inv(s, bound)
    ensures |ActiveIds(s.builds)| <= bound
    ensures s.pc.Starting? ==> |ActiveIds(s.builds)| <= bound - 1
  {
    match s.pc
    case Idle =>
    case Cancelling(_, _, listed) => SubsetSize(ActiveIds(s.builds), listed + s.changed);
    case Waiting(_, listed) => SubsetSize(ActiveIds(s.builds), listed + s.changed);
    case Starting(None, _) => SubsetSize(ActiveIds(s.builds), s.changed);
    case Starting(Some(i), listed) => SubsetSize(ActiveIds(s.builds), listed + s.changed - {i});
  }

  /** Nothing but Instantiate and an image change makes a build active. */
  lemma ActiveShrinks(s: State, step: Step)
    requires Enabled(s, step) && !step.Instantiate? && !step.ImageChange?
    ensures ActiveIds(Next(s, step).builds) <= ActiveIds(s.builds)
  {
  }

  lemma ActiveGrows(s: State, step: Step)
    requires Enabled(s, step) && (step.Instantiate? || step.ImageChange?)
    ensures ActiveIds(Next(s, step).builds) <= ActiveIds(s.builds) + {s.next}
    ensures |ActiveIds(Next(s, step).builds)| <= |ActiveIds(s.builds)| + 1
  {
    SubsetSize(ActiveIds(Next(s, step).builds), ActiveIds(s.builds) + {s.next});
  }

  function Bound(bound: nat, step: Step): nat {
    if step.ImageChange? then bound + 1 else bound
  }

  lemma ExpectedGrows(s: State, ids: set<nat>, bound: nat)
    requires Expected(s, ids, bound)
    ensures Expected(Next(s, ImageChange), ids + {s.next}, bound + 1)
  {
    ActiveGrows(s, ImageChange);
  }

  lemma ImageChangeInv(s: State, bound: nat)
    requires Inv(s, bound)
    ensures Inv(Next(s, ImageChange), bound + 1)
  {
    match s.pc
    case Idle => ActiveGrows(s, ImageChange);
    case Starting(None, _) => ExpectedGrows(s, s.changed, bound - 1);
    case _ =>
      var listed := s.pc.listed;
      ExpectedGrows(s, listed + s.changed, bound);
      assert listed + s.changed + {s.next} == listed + Next(s, ImageChange).changed;
  }

  lemma NextInv(s: State, step: Step, bound: nat)
    requires Inv(s, bound) && Enabled(s, step)
    ensures Inv(Next(s, step), Bound(bound, step))
  {
    if step.ImageChange? {
      ImageChangeInv(s, bound);
    } else {
      InvBoundsActive(s, bound);
      if step.Instantiate? {
        ActiveGrows(s, step);
      } else {
        ActiveShrinks(s, step);
        SubsetSize(ActiveIds(Next(s, step).builds), ActiveIds(s.builds));
      }
    }
  }

  /** The image changes of a run. */
  function Changes(run: seq<Step>): nat {
    if run == [] then 0 else (if run[0].ImageChange? then 1 else 0) + Changes(run[1..])
  }

  lemma {:induction false} RunInv(s: State, run: seq<Step>, bound: nat)
    requires Inv(s, bound) && IsRun(s, run)
    ensures Inv(After(s, run), bound + Changes(run))
    decreases |run|
  {
    if run != [] {
      NextInv(s, run[0], bound);
      RunInv(Next(s, run[0]), run[1..], Bound(bound, run[0]));
    }
  }

  // ------------------------------------------------------------------ theorems

  /**
   In every run there are never more active builds than at the start, or than one, and one for each image
   change: restarts add none.
   */
  lemma ActiveBounded(s: State, run: seq<Step>)
    requires Numbered(s) && s.pc.Idle? && IsRun(s, run)
    ensures |ActiveIds(After(s, run).builds)| <= Max(1, |ActiveIds(s.builds)|) + Changes(run)
  {
    var bound := Max(1, |ActiveIds(s.builds)|);
    RunInv(s, run, bound);
    InvBoundsActive(After(s, run), bound + Changes(run));
  }

  /** So where only StartNewBuild creates builds, at most one is ever active. */
  lemma AtMostOneActive(next: nat, run: seq<Step>)
    requires IsRun(State(map[], next, Idle, {}), run) && Changes(run) == 0
    ensures |ActiveIds(After(State(map[], next, Idle, {}), run).builds)| <= 1
    ensures AtMostOneUnfinished(After(State(map[], next, Idle, {}), run).builds)
  {
    var s := State(map[], next, Idle, {});
    assert ActiveIds(s.builds) == {};
    ActiveBounded(s, run);
    UnfinishedIff(After(s, run).builds);
  }

  /** At most one build is New, Pending or Running. */
  predicate AtMostOneUnfinished(builds: Builds) {
    forall i, j | i in builds && j in builds && builds[i].phase in {New, Pending, Running} &&
                  builds[j].phase in {New, Pending, Running} :: i == j
  }

  lemma {:induction false} UnfinishedIff(builds: Builds)
    ensures |ActiveIds(builds)| <= 1 <==> AtMostOneUnfinished(builds)
  {
    var ids := ActiveIds(builds);
    if |ids| <= 1 {
      forall i, j | i in builds && j in builds && builds[i].phase in {New, Pending, Running} &&
                    builds[j].phase in {New, Pending, Running} ensures i == j
      {
        assert {i, j} <= ids;
        SubsetSize({i, j}, ids);
      }
    } else {
      var i :| i in ids;
      assert |ids - {i}| >= 1;
      var j :| j in ids - {i};
      assert builds[i].phase in {New, Pending, Running} && builds[j].phase in {New, Pending, Running};
    }
  }

  /** A new build is started only when no build was listed as active or the listed one is cancelled by now. */
  lemma StartsAfterCancelled(s: State, run: seq<Step>)
    requires Numbered(s) && s.pc.Idle? && IsRun(s, run)
    ensures var t := After(s, run);
            Enabled(t, Instantiate) ==>
              match t.pc.observed
              case None => t.pc.listed == {}
              case Some(i) => i in t.pc.listed && (i in t.builds ==> t.builds[i].phase.Cancelled?)
  {
    RunInv(s, run, Max(1, |ActiveIds(s.builds)|));
  }

  /** Whenever the run starts a build, no other is active. */
  ghost predicate CleanStarts(s: State, run: seq<Step>)
    requires IsRun(s, run)
    decreases |run|
  {
    run == [] ||
    ((run[0].Instantiate? ==> ActiveIds(s.builds) == {}) && CleanStarts(Next(s, run[0]), run[1..]))
  }

  lemma {:induction false} CleanFromOne(s: State, run: seq<Step>)
    requires Inv(s, 1) && IsRun(s, run) && Changes(run) == 0
    ensures CleanStarts(s, run)
    decreases |run|
  {
    if run != [] {
      InvBoundsActive(s, 1);
      NextInv(s, run[0], 1);
      CleanFromOne(Next(s, run[0]), run[1..]);
    }
  }

  /** A run that ends in a start beside an active build. */
  ghost predicate Unclean(s: State, run: seq<Step>) {
    IsRun(s, run) && !CleanStarts(s, run) && Changes(run) == 0
  }

  lemma StartsBeside(s: State)
    requires s.pc.Starting? && ActiveIds(s.builds) != {}
    ensures Unclean(s, [Instantiate])
  {
    assert [Instantiate][1..] == [];
  }

  lemma {:induction false} Prepend(s: State, step: Step, run: seq<Step>)
    requires Enabled(s, step) && !step.ImageChange? && Unclean(Next(s, step), run)
    ensures Unclean(s, [step] + run)
  {
    assert ([step] + run)[1..] == run;
  }

  /** The five steps of a restart that cancels `a` and nothing else. */
  function RestartRun(a: nat): seq<Step> {
    [List(Some(a))] + ([CancelUpdate] + ([Progress(a, Cancelled)] + ([Observe] + [Instantiate])))
  }

  lemma {:induction false} LeavesOthersRunning(s: State, a: nat, b: nat) returns (run: seq<Step>)
    requires s.pc.Idle? && a != b && a in ActiveIds(s.builds) && b in ActiveIds(s.builds)
    ensures run == RestartRun(a) && Unclean(s, run)
  {
    run := RestartRun(a);
    var s1 := Next(s, List(Some(a)));
    var s2 := Next(s1, CancelUpdate);
    var s3 := Next(s2, Progress(a, Cancelled));
    var s4 := Next(s3, Observe);
    assert b in ActiveIds(s4.builds);
    StartsBeside(s4);
    Prepend(s3, Observe, [Instantiate]);
    Prepend(s2, Progress(a, Cancelled), [Observe] + [Instantiate]);
    Prepend(s1, CancelUpdate, [Progress(a, Cancelled)] + ([Observe] + [Instantiate]));
    Prepend(s, List(Some(a)), [CancelUpdate] + ([Progress(a, Cancelled)] + ([Observe] + [Instantiate])));
  }

  /** In every run without image changes, whenever a build is started no other is active. */
  ghost predicate KeepsPromise(s: State) {
    forall run: seq<Step> | IsRun(s, run) && Changes(run) == 0 :: CleanStarts(s, run)
  }

  lemma BreaksPromise(s: State, run: seq<Step>)
    requires Unclean(s, run)
    ensures !KeepsPromise(s)
  {
  }

  /**
   StartNewBuild promises to cancel any other running builds.  The loop returns after the first active
   build, so, where image changes create none, the promise is kept in every run exactly when at most one
   build is active to begin with.
   */
  lemma CancelsOthersIffAtMostOne(s: State)
    requires Numbered(s) && s.pc.Idle?
    ensures KeepsPromise(s) <==> |ActiveIds(s.builds)| <= 1
  {
    var active := ActiveIds(s.builds);
    if |active| <= 1 {
      forall run: seq<Step> | IsRun(s, run) && Changes(run) == 0 ensures CleanStarts(s, run) {
        CleanFromOne(s, run);
      }
    } else {
      var a :| a in active;
      assert |active - {a}| >= 1;
      var b :| b in active - {a};
      var run := LeavesOthersRunning(s, a, b);
      BreaksPromise(s, run);
    }
  }

  /** With image changes there is no such state: two of them, and the next restart leaves a build running. */
  lemma ImageChangesBreakThePromise(s: State) returns (run: seq<Step>)
    requires Numbered(s) && s.pc.Idle?
    ensures IsRun(s, run) && !CleanStarts(s, run) && Changes(run) == 2
  {
    var a, b := s.next, s.next + 1;
    var s1 := Next(s, ImageChange);
    var s2 := Next(s1, ImageChange);
    assert a in ActiveIds(s2.builds) && b in ActiveIds(s2.builds);
    var rest := LeavesOthersRunning(s2, a, b);
    run := [ImageChange] + ([ImageChange] + rest);
    assert run[1..] == [ImageChange] + rest && ([ImageChange] + rest)[1..] == rest;
    assert IsRun(s1, [ImageChange] + rest) && !CleanStarts(s1, [ImageChange] + rest);
  }

  // ------------------------------------------------------------------ the code, amid other clients

  /** What a client sees: the builds, the next number, and the numbers of the builds that triggers have created. */
  datatype View = View(builds: Builds, next: nat, triggered: set<nat>)

  predicate Ordered(v: View) {
    forall i :: i in v.builds ==> i < v.next
  }

  /** The builds that triggers have created in between. */
  function Since(v: View, w: View): set<nat> {
    w.triggered - v.triggered
  }

  /**
   What anyone may do meanwhile: only triggers create builds, under new numbers; a finished build stays as it
   is, and no cancel is taken back.
   */
  predicate Settles(v: View, w: View) {
    && v.next <= w.next && v.triggered <= w.triggered
    && (forall i :: i in Since(v, w) ==> v.next <= i < w.next)
    && (forall i :: i in w.builds ==> i in v.builds || i in Since(v, w))
    && ActiveIds(w.builds) <= ActiveIds(v.builds) + Since(v, w)
    && forall i :: i in v.builds && i in w.builds ==>
         && (!Active(v.builds[i].phase) ==> w.builds[i].phase == v.builds[i].phase)
         && (v.builds[i].cancel ==> w.builds[i].cancel)
  }

  lemma SettlesTransitive(u: View, v: View, w: View)
    requires Ordered(u) && Settles(u, v) && Settles(v, w)
    ensures Ordered(v) && Settles(u, w)
  {
    assert Since(u, w) == Since(u, v) + Since(v, w);
    forall i | i in u.builds && i in w.builds ensures i in v.builds {
      assert i < u.next <= v.next;
    }
  }

  /** cancelUpdateTimeout divided by poolWaitTimeout. */
  const MaxPolls := 60

  class BuildClient {
    var builds: Builds
    var next: nat
    ghost var triggered: set<nat>

    ghost function Seen(): View
      reads this
    {
      View(builds, next, triggered)
    }

    /** Anything that goes on meanwhile: callers learn only that the builds settle. */
    method Interleave()
      modifies this
      ensures Settles(old(Seen()), Seen())
    {
    }
  }

  /** It was asked to stop, and it did. */
  predicate Stopped(builds: Builds, id: nat) {
    id in builds && builds[id].cancel && builds[id].phase.Cancelled?
  }

  /** One request later: meanwhile anything may have gone on. */
  method Later(c: BuildClient, ghost start: View)
    requires Ordered(start) && Settles(start, c.Seen())
    modifies c
    ensures Settles(start, c.Seen()) && Settles(old(c.Seen()), c.Seen())
  {
    c.Interleave();
    SettlesTransitive(start, old(c.Seen()), c.Seen());
  }

  /** The goroutine for one build: set the flag, again after a conflict, then poll until it is cancelled. */
  method CancelBuild(c: BuildClient, id: nat, version: nat) returns (ok: bool)
    requires Ordered(c.Seen()) && id < c.next
    modifies c
    ensures Settles(old(c.Seen()), c.Seen())
    ensures ok ==> Stopped(c.builds, id)
  {
    ghost var start := c.Seen();
    var known, flagged, polls := version, false, 0;
    while !flagged
      invariant polls <= MaxPolls && Settles(start, c.Seen())
      invariant flagged ==> id in c.builds && c.builds[id].cancel
      decreases MaxPolls - polls
    {
      if polls == MaxPolls { return false; }
      polls := polls + 1;
      Later(c, start);
      if * { return false; }
      if id !in c.builds { return false; }
      if c.builds[id].version == known {
        c.builds := c.builds[id := Bump(c.builds[id]).(cancel := true)];
        flagged := true;
      } else {
        known := c.builds[id].version;
      }
    }
    polls := 0;
    while polls < MaxPolls
      invariant Settles(start, c.Seen()) && (id in c.builds ==> c.builds[id].cancel)
    {
      polls := polls + 1;
      Later(c, start);
      if * { return false; }
      if id !in c.builds { return false; }
      if c.builds[id].phase == Cancelled { return true; }
    }
    ok := false;
  }

  /** Without an error one of the builds listed as active, if there was any, is cancelled by now. */
  method CancelRunningBuilds(c: BuildClient) returns (ok: bool)
    requires Ordered(c.Seen())
    modifies c
    ensures Settles(old(c.Seen()), c.Seen())
    ensures ok ==> OneStopped(old(c.Seen()), c.Seen())
    ensures ok && (exists i :: i in old(c.builds) && old(c.builds)[i].phase in {New, Pending, Running}) ==>
              exists i :: i in old(c.builds) && old(c.builds)[i].phase in {New, Pending, Running} &&
                          i in c.builds && c.builds[i].cancel && c.builds[i].phase == Cancelled
  {
    if * { return false; }
    var items, rest := c.builds, c.builds.Keys;
    while rest != {}
      invariant c.Seen() == old(c.Seen()) && c.builds == items && rest <= items.Keys
      invariant forall i :: i in items && i !in rest ==> !Active(items[i].phase)
      decreases rest
    {
      var i :| i in rest;
      rest := rest - {i};
      if Active(items[i].phase) {
        assert i in old(ActiveIds(c.builds));
        ok := CancelBuild(c, i, items[i].version);
        return;
      }
    }
    ok := true;
  }

  /** One of the builds active before was stopped, if there was any. */
  predicate OneStopped(v: View, u: View) {
    ActiveIds(v.builds) != {} ==> exists i :: i in ActiveIds(v.builds) && Stopped(u.builds, i)
  }

  /** Then, however things went on, all but one of them and the triggered ones may be active. */
  lemma OneLess(v: View, u: View, w: View)
    requires Ordered(v) && Settles(v, u) && Settles(u, w) && Settles(v, w) && OneStopped(v, u)
    ensures |ActiveIds(w.builds)| + 1 <= Max(1, |ActiveIds(v.builds)|) + |Since(v, w)|
    ensures |ActiveIds(v.builds)| <= 1 ==> ActiveIds(w.builds) <= Since(v, w)
  {
    var before, since, rest := ActiveIds(v.builds), Since(v, w), {};
    if before != {} {
      var i :| i in before && Stopped(u.builds, i);
      assert i < v.next <= u.next && i !in ActiveIds(u.builds) && i !in Since(u, w);
      assert i !in ActiveIds(w.builds);
      rest := before - {i};
      assert |rest| == |before| - 1;
    }
    assert ActiveIds(w.builds) <= rest + since;
    SubsetSize(ActiveIds(w.builds), rest + since);
    assert |rest + since| <= |rest| + |since|;
    assert |before| <= 1 ==> rest == {};
  }

  lemma NoMore(v: View, w: View)
    requires Settles(v, w)
    ensures |ActiveIds(w.builds)| <= |ActiveIds(v.builds)| + |Since(v, w)|
  {
    SubsetSize(ActiveIds(w.builds), ActiveIds(v.builds) + Since(v, w));
  }

  /** The listed build is cancelled, and meanwhile anything may have gone on; so there is room for one more. */
  method MakeRoom(c: BuildClient) returns (ok: bool)
    requires Ordered(c.Seen())
    modifies c
    ensures Ordered(c.Seen()) && Settles(old(c.Seen()), c.Seen())
    ensures ok ==>
              |ActiveIds(c.builds)| + 1 <= Max(1, old(|ActiveIds(c.builds)|)) + |Since(old(c.Seen()), c.Seen())|
    ensures ok && old(|ActiveIds(c.builds)|) <= 1 ==> ActiveIds(c.builds) <= Since(old(c.Seen()), c.Seen())
  {
    ghost var v := c.Seen();
    ok := CancelRunningBuilds(c);
    ghost var u := c.Seen();
    if !ok { return; }
    Later(c, v);
    OneLess(v, u, c.Seen());
  }

  lemma Started(w: View)
    requires Ordered(w)
    ensures ActiveIds(w.builds[w.next := Build(New, false, 1)]) == ActiveIds(w.builds) + {w.next}
    ensures |ActiveIds(w.builds) + {w.next}| == |ActiveIds(w.builds)| + 1
    ensures ActiveIds(w.builds) == {} ==>
              forall i :: i in w.builds ==> w.builds[i].phase in {Complete, Failed, Error, Cancelled}
  {
    if ActiveIds(w.builds) == {} {
      forall i | i in w.builds ensures w.builds[i].phase in {Complete, Failed, Error, Cancelled} {
        assert i !in ActiveIds(w.builds);
      }
    }
  }

  /**
   StartNewBuild, while triggers may create builds at any moment.  Restarting never adds to the active builds:
   they are at most as many as before, or one, and those that triggers created meanwhile.  With at most
   one active before, only the new build and those are active.
   */
  method StartNewBuild(c: BuildClient) returns (ok: bool, started: Option<nat>)
    requires Ordered(c.Seen())
    modifies c
    ensures Ordered(c.Seen()) && old(c.triggered) <= c.triggered
    ensures |ActiveIds(c.builds)| <= Max(1, old(|ActiveIds(c.builds)|)) + |c.triggered - old(c.triggered)|
    ensures started.Some? && old(|ActiveIds(c.builds)|) <= 1 ==>
              ActiveIds(c.builds) <= {started.value} + (c.triggered - old(c.triggered))
    ensures started.Some? ==>
              ok && started.value !in old(c.builds) && started.value !in c.triggered - old(c.triggered) &&
              started.value in ActiveIds(c.builds)
    ensures started.Some? && AtMostOneUnfinished(old(c.builds)) && c.triggered == old(c.triggered) ==>
              forall i :: i in c.builds && i != started.value ==>
                c.builds[i].phase in {Complete, Failed, Error, Cancelled}
  {
    started := None;
    ghost var v := c.Seen();
    UnfinishedIff(c.builds);
    ok := MakeRoom(c);
    NoMore(v, c.Seen());
    if !ok { return; }
    if * { return false, None; }
    // TriggerBuild reports a missing BuildConfig without an error
    if * { return true, None; }
    Started(c.Seen());
    started := Some(c.next);
    c.builds := c.builds[c.next := Build(New, false, 1)];
    c.next := c.next + 1;
  }
}
