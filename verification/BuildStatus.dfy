/**
 The status of a KogitoBuild (core/kogitobuild/build.go and status.go): builds sorted into buckets by
 phase, the latest build, and the conditions over any history of updates.
 */
module BuildStatus {
  import opened Options
  import opened BuildRestart
  import opened Conditions
  import opened Sorting

  /** A build as listed; a phase outside the seven known ones is None. */
  datatype Item = Item(name: string, phase: Option<Phase>, created: int, message: string)

  datatype Buckets = Buckets(
    new_: seq<string>, pending: seq<string>, running: seq<string>, complete: seq<string>,
    failed: seq<string>, error: seq<string>, cancelled: seq<string>)

  // ------------------------------------------------------------------ buckets

  function Bucket(i: Item): Phase {
    if i.phase.None? then New else i.phase.value
  }

  /** The names of one bucket, in list order. */
  function NamesIn(list: seq<Item>, p: Phase): seq<string> {
    if list == [] then []
    else
      NamesIn(list[..|list| - 1], p) +
      if Bucket(list[|list| - 1]) == p then [list[|list| - 1].name] else []
  }

  function BucketsOf(list: seq<Item>): Buckets {
    Buckets(NamesIn(list, New), NamesIn(list, Pending), NamesIn(list, Running), NamesIn(list, Complete),
            NamesIn(list, Failed), NamesIn(list, Error), NamesIn(list, Cancelled))
  }

  function Names(list: seq<Item>): (r: seq<string>)
    ensures |r| == |list|
  {
    seq(|list|, i requires 0 <= i < |list| => list[i].name)
  }

  /** The switch in the loop body. */
  function Add(b: Buckets, i: Item): Buckets {
    match i.phase
    case None => b.(new_ := b.new_ + [i.name])
    case Some(p) =>
      match p
      case New => b.(new_ := b.new_ + [i.name])
      case Pending => b.(pending := b.pending + [i.name])
      case Running => b.(running := b.running + [i.name])
      case Complete => b.(complete := b.complete + [i.name])
      case Failed => b.(failed := b.failed + [i.name])
      case Error => b.(error := b.error + [i.name])
      case Cancelled => b.(cancelled := b.cancelled + [i.name])
  }

  function Count(names: seq<string>, x: string): nat {
    multiset(names)[x]
  }

  /** How often a name is in the seven buckets together. */
  function Total(b: Buckets, x: string): nat {
    Count(b.new_, x) + Count(b.pending, x) + Count(b.running, x) + Count(b.complete, x) +
    Count(b.failed, x) + Count(b.error, x) + Count(b.cancelled, x)
  }

  lemma BucketsSnoc(list: seq<Item>, i: Item)
    ensures BucketsOf(list + [i]) == Add(BucketsOf(list), i)
  {
    assert (list + [i])[..|list|] == list;
  }

  lemma CountSnoc(names: seq<string>, n: string, x: string)
    ensures Count(names + [n], x) == Count(names, x) + if n == x then 1 else 0
  {
  }

  lemma AddTotal(b: Buckets, i: Item, x: string)
    ensures Total(Add(b, i), x) == Total(b, x) + if i.name == x then 1 else 0
  {
    match Bucket(i)
    case New => CountSnoc(b.new_, i.name, x);
    case Pending => CountSnoc(b.pending, i.name, x);
    case Running => CountSnoc(b.running, i.name, x);
    case Complete => CountSnoc(b.complete, i.name, x);
    case Failed => CountSnoc(b.failed, i.name, x);
    case Error => CountSnoc(b.error, i.name, x);
    case Cancelled => CountSnoc(b.cancelled, i.name, x);
  }

  /** The seven buckets together hold every listed build exactly as often as the list does. */
  lemma {:induction false} BucketsPartition(list: seq<Item>, x: string)
    ensures Total(BucketsOf(list), x) == Count(Names(list), x)
    decreases |list|
  {
    if list != [] {
      var init, last := list[..|list| - 1], list[|list| - 1];
      var one := if last.name == x then 1 else 0;
      calc {
        Total(BucketsOf(list), x);
        { assert init + [last] == list; BucketsSnoc(init, last); }
        Total(Add(BucketsOf(init), last), x);
        { AddTotal(BucketsOf(init), last, x); }
        Total(BucketsOf(init), x) + one;
        { BucketsPartition(init, x); }
        Count(Names(init), x) + one;
        { CountSnoc(Names(init), last.name, x); }
        Count(Names(init) + [last.name], x);
        { assert Names(list) == Names(init) + [last.name]; }
        Count(Names(list), x);
      }
    }
  }

  predicate HasPrefix(s: string, prefix: string) {
    prefix <= s
  }

  function OfConfig(list: seq<Item>, prefix: string): seq<Item> {
    if list == [] then []
    else
      OfConfig(list[..|list| - 1], prefix) +
      if HasPrefix(list[|list| - 1].name, prefix) then [list[|list| - 1]] else []
  }

  function Prefixed(names: seq<string>, prefix: string): seq<string> {
    if names == [] then []
    else
      Prefixed(names[..|names| - 1], prefix) +
      if HasPrefix(names[|names| - 1], prefix) then [names[|names| - 1]] else []
  }

  /** Selecting the builds of one BuildConfig first, or filtering each bucket afterwards, is the same. */
  lemma {:induction false} PrefixCommutes(list: seq<Item>, prefix: string, p: Phase)
    ensures NamesIn(OfConfig(list, prefix), p) == Prefixed(NamesIn(list, p), prefix)
    decreases |list|
  {
    if list != [] {
      var init, last := list[..|list| - 1], list[|list| - 1];
      PrefixCommutes(init, prefix, p);
      var mine, here := OfConfig(init, prefix), NamesIn(init, p);
      assert OfConfig(list, prefix) == if HasPrefix(last.name, prefix) then mine + [last] else mine;
      assert NamesIn(list, p) == if Bucket(last) == p then here + [last.name] else here;
    }
  }

  /** Every bucket filtered by the name prefix. */
  function Narrowed(b: Buckets, prefix: string): Buckets {
    Buckets(Prefixed(b.new_, prefix), Prefixed(b.pending, prefix), Prefixed(b.running, prefix),
            Prefixed(b.complete, prefix), Prefixed(b.failed, prefix), Prefixed(b.error, prefix),
            Prefixed(b.cancelled, prefix))
  }

  lemma {:induction false} NamesInMember(list: seq<Item>, p: Phase, x: string)
    ensures x in NamesIn(list, p) <==>
            exists k :: 0 <= k < |list| && list[k].name == x && (list[k].phase == Some(p) || (p == New && list[k].phase == None))
    decreases |list|
  {
    if list != [] {
      var init, last := list[..|list| - 1], list[|list| - 1];
      NamesInMember(init, p, x);
      assert forall k :: 0 <= k < |init| ==> init[k] == list[k];
      assert Bucket(last) == p <==> last.phase == Some(p) || (p == New && last.phase == None);
    }
  }

  lemma {:induction false} PrefixedMember(names: seq<string>, prefix: string, x: string)
    ensures x in Prefixed(names, prefix) <==> x in names && prefix <= x
    decreases |names|
  {
    if names != [] { PrefixedMember(names[..|names| - 1], prefix, x); }
  }

  /** The bucket holds exactly the names, beginning with the prefix, of listed builds in one of the phases. */
  ghost predicate Holds(bucket: seq<string>, list: seq<Item>, phases: set<Option<Phase>>, prefix: string) {
    forall x :: x in bucket <==>
      prefix <= x && exists k :: 0 <= k < |list| && list[k].name == x && list[k].phase in phases
  }

  /** Each bucket holds its own phase; an unknown phase counts as New. */
  ghost predicate Filled(b: Buckets, list: seq<Item>, prefix: string) {
    && Holds(b.new_, list, {Some(New), None}, prefix)
    && Holds(b.pending, list, {Some(Pending)}, prefix)
    && Holds(b.running, list, {Some(Running)}, prefix)
    && Holds(b.complete, list, {Some(Complete)}, prefix)
    && Holds(b.failed, list, {Some(Failed)}, prefix)
    && Holds(b.error, list, {Some(Error)}, prefix)
    && Holds(b.cancelled, list, {Some(Cancelled)}, prefix)
  }

  lemma {:induction false} PhaseHolds(list: seq<Item>, p: Phase, prefix: string)
    ensures Holds(Prefixed(NamesIn(list, p), prefix), list, if p == New then {Some(New), None} else {Some(p)}, prefix)
  {
    forall x ensures x in Prefixed(NamesIn(list, p), prefix) <==>
                     prefix <= x && exists k :: 0 <= k < |list| && list[k].name == x &&
                                                list[k].phase in (if p == New then {Some(New), None} else {Some(p)})
    {
      PrefixedMember(NamesIn(list, p), prefix, x);
      NamesInMember(list, p, x);
    }
  }

  lemma NarrowedFilled(list: seq<Item>, prefix: string)
    ensures Filled(Narrowed(BucketsOf(list), prefix), list, prefix)
  {
    PhaseHolds(list, New, prefix);
    PhaseHolds(list, Pending, prefix);
    PhaseHolds(list, Running, prefix);
    PhaseHolds(list, Complete, prefix);
    PhaseHolds(list, Failed, prefix);
    PhaseHolds(list, Error, prefix);
    PhaseHolds(list, Cancelled, prefix);
  }

  lemma {:induction false} PrefixedAll(names: seq<string>)
    ensures Prefixed(names, "") == names
    decreases |names|
  {
    if names != [] {
      var n := |names| - 1;
      PrefixedAll(names[..n]);
      assert names[..n] + [names[n]] == names && HasPrefix(names[n], "");
    }
  }

  lemma NarrowedAll(b: Buckets)
    ensures Narrowed(b, "") == b
  {
    PrefixedAll(b.new_);
    PrefixedAll(b.pending);
    PrefixedAll(b.running);
    PrefixedAll(b.complete);
    PrefixedAll(b.failed);
    PrefixedAll(b.error);
    PrefixedAll(b.cancelled);
  }

  method GetBuildsStatusByLabel(list: seq<Item>) returns (status: Buckets)
    ensures status == BucketsOf(list)
    ensures Filled(status, list, "")
    ensures forall x :: Total(status, x) == Count(Names(list), x)
  {
    status := Buckets([], [], [], [], [], [], []);
    for k := 0 to |list|
      invariant status == BucketsOf(list[..k])
    {
      assert list[..k + 1] == list[..k] + [list[k]];
      BucketsSnoc(list[..k], list[k]);
      status := Add(status, list[k]);
    }
    assert list[..|list|] == list;
    forall x ensures Total(status, x) == Count(Names(list), x) { BucketsPartition(list, x); }
    NarrowedFilled(list, "");
    NarrowedAll(status);
  }

  /** What looking up the BuildConfig gives. */
  datatype Lookup = Found | Missing | Unreadable

  /** The loop over the listed builds. */
  method BucketsOfConfig(list: seq<Item>, buildConfig: string) returns (status: Buckets)
    ensures status == BucketsOf(OfConfig(list, buildConfig)) == Narrowed(BucketsOf(list), buildConfig)
  {
    status := Buckets([], [], [], [], [], [], []);
    for k := 0 to |list|
      invariant status == BucketsOf(OfConfig(list[..k], buildConfig))
    {
      assert list[..k + 1][..k] == list[..k];
      ghost var mine := OfConfig(list[..k], buildConfig);
      assert OfConfig(list[..k + 1], buildConfig) ==
             if HasPrefix(list[k].name, buildConfig) then mine + [list[k]] else mine;
      if HasPrefix(list[k].name, buildConfig) {
        BucketsSnoc(mine, list[k]);
        status := Add(status, list[k]);
      }
    }
    assert list[..|list|] == list;
    forall p: Phase ensures NamesIn(OfConfig(list, buildConfig), p) == Prefixed(NamesIn(list, p), buildConfig) {
      PrefixCommutes(list, buildConfig, p);
    }
  }

  /**
   GetBuildsStatus; `list` is None when the builds cannot be listed.  A missing BuildConfig gives neither a
   status nor an error.
   */
  method GetBuildsStatus(config: Lookup, list: Option<seq<Item>>, buildConfig: string)
    returns (status: Option<Buckets>, ok: bool)
    ensures ok <==> config.Missing? || (config.Found? && list.Some?)
    ensures status ==
            if config.Found? && list.Some? then Some(Narrowed(BucketsOf(list.value), buildConfig)) else None
    ensures config.Found? && list.Some? ==> status.Some? && Filled(status.value, list.value, buildConfig)
  {
    status, ok := None, config == Missing;
    if config != Found || list == None { return; }
    var buckets := BucketsOfConfig(list.value, buildConfig);
    status, ok := Some(buckets), true;
    NarrowedFilled(list.value, buildConfig);
  }

  // ------------------------------------------------------------------ the latest build

  predicate Newer(a: Item, b: Item) {
    a.created > b.created
  }

  /** The head of the list after sort.SliceStable by creation time, newest first. */
  function Latest(list: seq<Item>): Item
    requires list != []
  {
    SortIsStable(list, Newer);
    assert |multiset(Sort(list, Newer))| == |multiset(list)|;
    Sort(list, Newer)[0]
  }

  lemma {:induction false} TiesFirst(list: seq<Item>, t: Item) returns (k: nat)
    requires t in list
    ensures k < |list| && Ties(list, Newer, t) != [] && Ties(list, Newer, t)[0] == list[k]
    ensures list[k].created == t.created && forall j :: 0 <= j < k ==> list[j].created != t.created
    decreases |list|
  {
    if list[0].created == t.created {
      k := 0;
    } else {
      k := TiesFirst(list[1..], t);
      k := k + 1;
      forall j | 0 <= j < k ensures list[j].created != t.created {
        if j > 0 { assert list[1..][j - 1] == list[j]; }
      }
    }
  }

  /** The latest build is the first in list order among those created last. */
  lemma LatestIsFirstNewest(list: seq<Item>)
    requires list != []
    ensures exists k :: 0 <= k < |list| && list[k] == Latest(list) &&
              (forall j :: 0 <= j < |list| ==> list[j].created <= list[k].created) &&
              (forall j :: 0 <= j < k ==> list[j].created < list[k].created)
  {
    LatestIsHead(list);
    var k := TiesFirst(list, Latest(list));
    LatestIsNewest(list);
  }

  lemma LatestIsHead(list: seq<Item>)
    requires list != []
    ensures Latest(list) in list && Ties(list, Newer, Latest(list)) != []
    ensures Ties(list, Newer, Latest(list))[0] == Latest(list)
  {
    SortIsStable(list, Newer);
    var sorted, t := Sort(list, Newer), Latest(list);
    assert t in multiset(sorted) && t in multiset(list);
    assert Ties(sorted, Newer, t)[0] == t;
  }

  lemma LatestIsNewest(list: seq<Item>)
    requires list != []
    ensures forall j :: 0 <= j < |list| ==> list[j].created <= Latest(list).created
  {
    SortIsStable(list, Newer);
    var sorted, t := Sort(list, Newer), Latest(list);
    forall j | 0 <= j < |list| ensures list[j].created <= t.created {
      assert list[j] in multiset(list) && list[j] in multiset(sorted);
      var i :| 0 <= i < |sorted| && sorted[i] == list[j];
    }
  }

  // ------------------------------------------------------------------ conditions over histories

  const RunningType := "Running"
  const SuccessfulType := "Successful"
  const FailedType := "Failed"
  const OperatorFailure := "OperatorFailure"
  const NotYetStarted := "NotYetStarted"

  /** What one status update is about. */
  datatype Event =
    | ReconcileError(text: string)     // the reconcile failed
    | Unlisted                         // the builds could not be listed
    | NoBuild                          // there is no build yet
    | LatestBuild(phase: Option<Phase>, text: string)

  /** Which conditions an update sets: a failure, a running build, a success, or none. */
  datatype Says = Fails | Runs | Succeeds | Nothing

  /** addCondition has no case for the Error phase, nor for an unknown one. */
  function Meaning(e: Event): Says {
    match e
    case ReconcileError(_) => Fails
    case Unlisted => Nothing
    case NoBuild => Runs
    case LatestBuild(None, _) => Nothing
    case LatestBuild(Some(p), _) =>
      match p
      case Failed => Fails
      case Cancelled => Fails
      case Error => Nothing
      case Complete => Succeeds
      case _ => Runs
  }

  function ReasonOf(p: Phase): string {
    match p
    case New => "New"
    case Pending => "Pending"
    case Running => "Running"
    case Complete => "Complete"
    case Failed => "Failed"
    case Error => "Error"
    case Cancelled => "Cancelled"
  }

  function Reason(e: Event): string {
    match e
    case ReconcileError(_) => OperatorFailure
    case NoBuild => NotYetStarted
    case LatestBuild(Some(p), _) => ReasonOf(p)
    case _ => ""
  }

  function Text(e: Event): string {
    match e
    case ReconcileError(text) => text
    case LatestBuild(_, text) => text
    case _ => ""
  }

  function SetBoth(cs: seq<Condition>, running: bool, successful: bool, reason: string): seq<Condition> {
    Set(Set(cs, Condition(RunningType, running, reason, "")), Condition(SuccessfulType, successful, reason, ""))
  }

  /** HandleStatusChange on the conditions. */
  function Handled(cs: seq<Condition>, e: Event): seq<Condition> {
    match Meaning(e)
    case Fails => SetBoth(Set(cs, Condition(FailedType, true, Reason(e), Text(e))), false, false, Reason(e))
    case Runs => SetBoth(cs, true, false, Reason(e))
    case Succeeds => SetBoth(cs, false, true, Reason(e))
    case Nothing => cs
  }

  function Status(events: seq<Event>): seq<Condition> {
    if events == [] then [] else Handled(Status(events[..|events| - 1]), events[|events| - 1])
  }

  /** The updates that report a failure, a build under way, a success, or nothing at all, by what they are about. */
  predicate IsFailure(e: Event) {
    e.ReconcileError? || (e.LatestBuild? && e.phase in {Some(Failed), Some(Cancelled)})
  }

  predicate IsUnderWay(e: Event) {
    e.NoBuild? || (e.LatestBuild? && e.phase in {Some(New), Some(Pending), Some(Running)})
  }

  predicate IsSuccess(e: Event) {
    e.LatestBuild? && e.phase == Some(Complete)
  }

  predicate IsSilent(e: Event) {
    e.Unlisted? || (e.LatestBuild? && e.phase in {None, Some(Error)})
  }

  /** The last update that was not silent, and the last failure. */
  function LastWord(events: seq<Event>): Option<Event> {
    if events == [] then None
    else if !IsSilent(events[|events| - 1]) then Some(events[|events| - 1])
    else LastWord(events[..|events| - 1])
  }

  function LastFailure(events: seq<Event>): Option<Event> {
    if events == [] then None
    else if IsFailure(events[|events| - 1]) then Some(events[|events| - 1])
    else LastFailure(events[..|events| - 1])
  }

  /** The Failed condition after a failure. */
  function FailedAfter(e: Event): Condition {
    match e
    case ReconcileError(text) => Condition("Failed", true, "OperatorFailure", text)
    case LatestBuild(phase, text) => Condition("Failed", true, if phase == Some(Failed) then "Failed" else "Cancelled", text)
    case _ => Condition("Failed", false, "", "")
  }

  /** Running and Successful with their values, and both with the reason. */
  predicate Tells(cs: seq<Condition>, running: bool, successful: bool, reason: string) {
    && Find(cs, "Running") == Some(Condition("Running", running, reason, ""))
    && Find(cs, "Successful") == Some(Condition("Successful", successful, reason, ""))
  }

  lemma {:induction false} SetBothFind(cs: seq<Condition>, running: bool, successful: bool, reason: string)
    ensures var r := SetBoth(cs, running, successful, reason);
            && Tells(r, running, successful, reason)
            && Find(r, FailedType) == Find(cs, FailedType)
            && (Distinct(cs) ==> Distinct(r))
  {
    var a, b := Condition(RunningType, running, reason, ""), Condition(SuccessfulType, successful, reason, "");
    SetFind(cs, a, RunningType);
    SetFind(cs, a, FailedType);
    SetFind(Set(cs, a), b, RunningType);
    SetFind(Set(cs, a), b, SuccessfulType);
    SetFind(Set(cs, a), b, FailedType);
    if Distinct(cs) {
      SetDistinct(cs, a);
      SetDistinct(Set(cs, a), b);
    }
  }

  lemma {:induction false} HandledFailure(cs: seq<Condition>, e: Event)
    requires Meaning(e) == Fails
    ensures var r := Handled(cs, e);
            && (Distinct(cs) ==> Distinct(r)) && Tells(r, false, false, Reason(e))
            && Find(r, "Failed") == Some(Condition("Failed", true, Reason(e), Text(e)))
  {
    var f := Condition(FailedType, true, Reason(e), Text(e));
    if Distinct(cs) { SetDistinct(cs, f); }
    SetFind(cs, f, FailedType);
    SetBothFind(Set(cs, f), false, false, Reason(e));
  }

  /** What one update does to the three conditions. */
  lemma {:induction false} HandledSays(cs: seq<Condition>, e: Event)
    ensures var r := Handled(cs, e);
            && (Distinct(cs) ==> Distinct(r))
            && (IsSilent(e) ==> r == cs)
            && (!IsSilent(e) ==> Tells(r, IsUnderWay(e), IsSuccess(e), Reason(e)))
            && Find(r, "Failed") == if IsFailure(e) then Some(FailedAfter(e)) else Find(cs, "Failed")
  {
    match Meaning(e)
    case Fails => HandledFailure(cs, e);
    case Runs => SetBothFind(cs, true, false, Reason(e));
    case Succeeds => SetBothFind(cs, false, true, Reason(e));
    case Nothing =>
  }

  /**
   The conditions after a latest build, by its phase alone.  Failed and Cancelled: Failed with that reason and
   the build's message, the others False.  New, Pending, Running: Running.  Complete: Successful.  Error and
   unknown phases: as before.
   */
  ghost predicate ReportedAs(before: seq<Condition>, after: seq<Condition>, phase: Option<Phase>, message: string) {
    && (phase == Some(Failed) ==> Find(after, "Failed") == Some(Condition("Failed", true, "Failed", message)))
    && (phase == Some(Cancelled) ==> Find(after, "Failed") == Some(Condition("Failed", true, "Cancelled", message)))
    && (phase !in {Some(Failed), Some(Cancelled)} ==> Find(after, "Failed") == Find(before, "Failed"))
    && (phase == Some(Failed) ==> Tells(after, false, false, "Failed"))
    && (phase == Some(Cancelled) ==> Tells(after, false, false, "Cancelled"))
    && (phase == Some(New) ==> Tells(after, true, false, "New"))
    && (phase == Some(Pending) ==> Tells(after, true, false, "Pending"))
    && (phase == Some(Running) ==> Tells(after, true, false, "Running"))
    && (phase == Some(Complete) ==> Tells(after, false, true, "Complete"))
    && (phase in {None, Some(Error)} ==> after == before)
  }

  lemma LatestBuildReported(cs: seq<Condition>, phase: Option<Phase>, message: string)
    ensures ReportedAs(cs, Handled(cs, LatestBuild(phase, message)), phase, message)
  {
    HandledSays(cs, LatestBuild(phase, message));
  }

  /**
   Over any history: types stay distinct; Running is True exactly if the last update that was not silent was about
   a build under way or none yet, Successful exactly if it was about a complete one, so never both; and
   Failed is there exactly after a failure, however long ago, with reason and message of the last one.
   */
  lemma {:induction false} StatusOverHistory(events: seq<Event>)
    ensures var cs, word, failure := Status(events), LastWord(events), LastFailure(events);
            && Distinct(cs)
            && IsTrue(cs, "Running") == (word.Some? && IsUnderWay(word.value))
            && IsTrue(cs, "Successful") == (word.Some? && IsSuccess(word.value))
            && (word.Some? ==> Tells(cs, IsUnderWay(word.value), IsSuccess(word.value), Reason(word.value)))
            && Find(cs, "Failed") == if failure.Some? then Some(FailedAfter(failure.value)) else None
    decreases |events|
  {
    if events != [] {
      var init, last := events[..|events| - 1], events[|events| - 1];
      StatusOverHistory(init);
      HandledSays(Status(init), last);
    }
  }

  lemma {:induction false} StatusSnoc(events: seq<Event>, more: seq<Event>)
    requires more != []
    ensures var n := |more| - 1; Status(events + more) == Handled(Status(events + more[..n]), more[n])
  {
    var all, n := events + more, |more| - 1;
    assert all[..|all| - 1] == events + more[..n] && all[|all| - 1] == more[n];
    StatusLast(all);
  }

  lemma {:induction false} StatusLast(all: seq<Event>)
    requires all != []
    ensures Status(all) == Handled(Status(all[..|all| - 1]), all[|all| - 1])
  {
  }

  /** Failed once True stays True, whatever happens later. */
  lemma {:induction false} FailedIsSticky(events: seq<Event>, more: seq<Event>)
    requires IsTrue(Status(events), "Failed")
    ensures IsTrue(Status(events + more), "Failed")
    decreases |more|
  {
    if more == [] {
      assert events + more == events;
    } else {
      var n := |more| - 1;
      FailedIsSticky(events, more[..n]);
      StatusSnoc(events, more);
      HandledSays(Status(events + more[..n]), more[n]);
    }
  }

  ghost predicate Unreported(p: Option<Phase>, events: seq<Event>, text: string) {
    Status(events + [LatestBuild(p, text)]) == Status(events)
  }

  lemma {:induction false} UnreportedIs(p: Option<Phase>, events: seq<Event>, text: string)
    ensures Unreported(p, events, text) <==> Handled(Status(events), LatestBuild(p, text)) == Status(events)
  {
    assert (events + [LatestBuild(p, text)])[..|events|] == events;
  }

  /** A latest build goes unreported after every history exactly when its phase is Error or unknown. */
  lemma {:induction false} UnreportedIffErrorOrUnknown(p: Option<Phase>)
    ensures (forall events: seq<Event>, text: string :: Unreported(p, events, text)) <==> p.None? || p == Some(Error)
  {
    if p.None? || p == Some(Error) {
      forall events: seq<Event>, text: string ensures Unreported(p, events, text) {
        UnreportedIs(p, events, text);
        HandledSays(Status(events), LatestBuild(p, text));
      }
    } else {
      UnreportedIs(p, [], "");
      HandledSays([], LatestBuild(p, ""));
      assert !Unreported(p, [], "");
    }
  }

  // ------------------------------------------------------------------ the handler

  /** What an update is about, given the reconcile's error and the two listings of the builds. */
  function EventOf(err: Option<string>, first: Option<seq<Item>>, second: Option<seq<Item>>): (e: Event)
    ensures e.LatestBuild? ==> second.Some? && second.value != []
  {
    if err.Some? then ReconcileError(err.value)
    else if first.None? || second.None? then Unlisted
    else if second.value == [] then NoBuild
    else
      var l := Latest(second.value);
      LatestBuild(l.phase, l.message)
  }

  class BuildStatusHandler {
    var conditions: seq<Condition>
    var latestBuild: string
    var builds: Buckets

    constructor ()
      ensures conditions == [] && latestBuild == "" && builds == BucketsOf([])
    {
      conditions, latestBuild, builds := [], "", Buckets([], [], [], [], [], [], []);
    }

    method SetRunningConditions(running: bool, successful: bool, reason: string)
      modifies this`conditions
      ensures conditions == SetBoth(old(conditions), running, successful, reason)
    {
      conditions := Set(conditions, Condition(RunningType, running, reason, ""));
      conditions := Set(conditions, Condition(SuccessfulType, successful, reason, ""));
    }

    method SetFailedConditions(reason: string, text: string)
      modifies this`conditions
      ensures conditions ==
              SetBoth(Set(old(conditions), Condition(FailedType, true, reason, text)), false, false, reason)
    {
      conditions := Set(conditions, Condition(FailedType, true, reason, text));
      SetRunningConditions(false, false, reason);
    }

    /** addCondition: there is no case for the Error phase. */
    method AddCondition(latest: Item)
      modifies this`conditions
      ensures conditions == Handled(old(conditions), LatestBuild(latest.phase, latest.message))
      ensures ReportedAs(old(conditions), conditions, latest.phase, latest.message)
    {
      LatestBuildReported(conditions, latest.phase, latest.message);
      if latest.phase == None { return; }
      var phase := latest.phase.value;
      if phase == Failed || phase == Cancelled {
        SetFailedConditions(ReasonOf(phase), latest.message);
      } else if phase == New || phase == Pending || phase == Running {
        SetRunningConditions(true, false, ReasonOf(phase));
      } else if phase == Complete {
        SetRunningConditions(false, true, ReasonOf(phase));
      }
    }

    /**
     HandleStatusChange.  The builds are listed twice, once for the buckets and once for the latest build,
     and either listing may fail; so the buckets can change when nothing else does, and the two can
     be about different builds.
     */
    method HandleStatusChange(err: Option<string>, first: Option<seq<Item>>, second: Option<seq<Item>>)
      modifies this
      ensures conditions == Handled(old(conditions), EventOf(err, first, second))
      ensures builds == if err.None? && first.Some? then BucketsOf(first.value) else old(builds)
      ensures latestBuild ==
              if EventOf(err, first, second).LatestBuild? then Latest(second.value).name else old(latestBuild)
      ensures err.Some? ==>
                && Find(conditions, "Failed") == Some(Condition("Failed", true, "OperatorFailure", err.value))
                && Tells(conditions, false, false, "OperatorFailure")
      ensures err.None? && (first.None? || second.None?) ==> conditions == old(conditions)
      ensures err.None? && first.Some? && second == Some([]) ==>
                && Tells(conditions, true, false, "NotYetStarted")
                && Find(conditions, "Failed") == Find(old(conditions), "Failed")
      ensures err.None? && first.Some? && second.Some? && second.value != [] ==>
                ReportedAs(old(conditions), conditions, Latest(second.value).phase, Latest(second.value).message)
    {
      HandledSays(conditions, EventOf(err, first, second));
      if err != None {
        SetFailedConditions(OperatorFailure, err.value);
        return;
      }
      if first == None { return; }
      builds := GetBuildsStatusByLabel(first.value);
      if second == None { return; }
      if |second.value| == 0 {
        SetRunningConditions(true, false, NotYetStarted);
        return;
      }
      var latest := NewestFirst(second.value);
      latestBuild := latest.name;
      AddCondition(latest);
    }
  }

  /** The list is sorted in place, newest first, and its head taken. */
  method NewestFirst(list: seq<Item>) returns (latest: Item)
    requires list != []
    ensures latest == Latest(list)
    ensures latest in list && forall j :: 0 <= j < |list| ==> list[j].created <= latest.created
  {
    LatestIsHead(list);
    LatestIsNewest(list);
    var items := SliceStable(list, Newer);
    latest := items[0];
  }
}
