/**
 The status conditions of a Kogito service (core/kogitoservice/status.go), over any history of reconciles.
 A status is stored only at the end of an update; when the replicas cannot be read, or a later part of
 the update fails, what was changed in memory is dropped.
 */
module ServiceStatus {
  import opened Options
  import opened Conditions

  const Deployed := "Deployed"
  const Provisioning := "Provisioning"
  const FailedType := "Failed"

  const ProvisioningInProgress := "RequestedReplicasNotEqualToAvailableReplicas"
  const FinishedProvisioning := "RequestedReplicasEqualToAvailableReplicas"
  const FailedProvisioning := "UnrecoverableError"
  const SuccessfulDeployed := "AtLeastOnePodAvailable"
  const FailedDeployed := "NoPodAvailable"

  /**
   One reconcile: it failed, with a reason and a message, perhaps only to be retried (a reconciliation
   error); or it succeeded.  `available` is None when the replicas could not be read.
   */
  datatype Reconcile =
    | Failure(reason: string, message: string, retried: bool, available: Option<int>)
    | Success(available: Option<int>, expected: int)

  /** `stored` tells whether everything after the conditions, and the final write, worked. */
  datatype Event = Event(reconcile: Reconcile, stored: bool)

  function DeployedCondition(status: bool): Condition {
    Condition(Deployed, status, if status then SuccessfulDeployed else FailedDeployed, "")
  }

  function ProvisioningCondition(status: bool, reason: string): Condition {
    Condition(Provisioning, status, reason, "")
  }

  function FailedCondition(status: bool, reason: string, message: string): Condition {
    Condition(FailedType, status, reason, message)
  }

  /** InvalidateFailedCondition: false now, but with the old reason and message. */
  function Invalidated(cs: seq<Condition>): seq<Condition> {
    match Find(cs, FailedType)
    case None => cs
    case Some(f) => Set(cs, FailedCondition(false, f.reason, f.message))
  }

  /** setFailedConditions; None when the replicas cannot be read. */
  function AfterFailure(cs: seq<Condition>, reason: string, message: string, retried: bool, available: Option<int>)
    : Option<seq<Condition>>
  {
    var failed := Set(cs, FailedCondition(true, reason, message));
    var provisioning := Set(failed,
      if retried then ProvisioningCondition(true, ProvisioningInProgress)
      else ProvisioningCondition(false, FailedProvisioning));
    if available.None? then None else Some(Set(provisioning, DeployedCondition(available.value > 0)))
  }

  /** handleConditionTransition */
  function AfterSuccess(cs: seq<Condition>, available: Option<int>, expected: int): Option<seq<Condition>> {
    var base := Invalidated(cs);
    if available.None? then None
    else
      var n := available.value;
      if expected == n then
        Some(Set(Set(base, DeployedCondition(true)), ProvisioningCondition(false, FinishedProvisioning)))
      else if 0 < n < expected then
        Some(Set(Set(base, DeployedCondition(true)), ProvisioningCondition(true, ProvisioningInProgress)))
      else if n == 0 then
        Some(Set(Set(base, DeployedCondition(false)), ProvisioningCondition(true, ProvisioningInProgress)))
      else Some(base)
  }

  function Computed(cs: seq<Condition>, r: Reconcile): Option<seq<Condition>> {
    match r
    case Failure(reason, message, retried, available) => AfterFailure(cs, reason, message, retried, available)
    case Success(available, expected) => AfterSuccess(cs, available, expected)
  }

  /** The event that made it into the stored status. */
  predicate Persisted(e: Event) {
    e.stored && e.reconcile.available.Some?
  }

  function Handled(cs: seq<Condition>, e: Event): seq<Condition> {
    var r := Computed(cs, e.reconcile);
    if e.stored && r.Some? then r.value else cs
  }

  function Status(events: seq<Event>): seq<Condition> {
    if events == [] then [] else Handled(Status(events[..|events| - 1]), events[|events| - 1])
  }

  /** The last persisted event, the last persisted failure. */
  function LastPersisted(events: seq<Event>): Option<Event> {
    if events == [] then None
    else if Persisted(events[|events| - 1]) then Some(events[|events| - 1])
    else LastPersisted(events[..|events| - 1])
  }

  function LastFailure(events: seq<Event>): Option<Reconcile> {
    if events == [] then None
    else
      var e := events[|events| - 1];
      if Persisted(e) && e.reconcile.Failure? then Some(e.reconcile)
      else LastFailure(events[..|events| - 1])
  }

  lemma InvalidatedFind(cs: seq<Condition>, kind: string)
    ensures Find(Invalidated(cs), kind) ==
            if kind == FailedType && Find(cs, kind).Some?
            then Some(FailedCondition(false, Find(cs, kind).value.reason, Find(cs, kind).value.message))
            else Find(cs, kind)
  {
    match Find(cs, FailedType)
    case None =>
    case Some(f) => SetFind(cs, FailedCondition(false, f.reason, f.message), kind);
  }

  lemma {:induction false} FailureFind(cs: seq<Condition>, reason: string, message: string, retried: bool, n: int)
    ensures var r := AfterFailure(cs, reason, message, retried, Some(n)).value;
            && Find(r, "Failed") == Some(Condition("Failed", true, reason, message))
            && Find(r, "Provisioning") ==
               Some(Condition("Provisioning", retried, if retried then ProvisioningInProgress else FailedProvisioning, ""))
            && Find(r, "Deployed") ==
               Some(Condition("Deployed", n > 0, if n > 0 then SuccessfulDeployed else FailedDeployed, ""))
  {
    var f := FailedCondition(true, reason, message);
    var p := if retried then ProvisioningCondition(true, ProvisioningInProgress)
             else ProvisioningCondition(false, FailedProvisioning);
    var c1, c2 := Set(cs, f), Set(Set(cs, f), p);
    SetFind(cs, f, FailedType);
    SetFind(c1, p, FailedType);
    SetFind(c1, p, Provisioning);
    SetFind(c2, DeployedCondition(n > 0), FailedType);
    SetFind(c2, DeployedCondition(n > 0), Provisioning);
    SetFind(c2, DeployedCondition(n > 0), Deployed);
  }

  lemma {:induction false} SetTwoFind(base: seq<Condition>, d: bool, p: bool, reason: string)
    ensures var r := Set(Set(base, DeployedCondition(d)), ProvisioningCondition(p, reason));
            && Find(r, FailedType) == Find(base, FailedType)
            && Find(r, "Deployed") == Some(Condition("Deployed", d, if d then SuccessfulDeployed else FailedDeployed, ""))
            && Find(r, "Provisioning") == Some(Condition("Provisioning", p, reason, ""))
  {
    var c1 := Set(base, DeployedCondition(d));
    SetFind(base, DeployedCondition(d), FailedType);
    SetFind(base, DeployedCondition(d), Deployed);
    SetFind(c1, ProvisioningCondition(p, reason), FailedType);
    SetFind(c1, ProvisioningCondition(p, reason), Deployed);
    SetFind(c1, ProvisioningCondition(p, reason), Provisioning);
  }

  /** With replicas between none and all, they decide; with more than expected, nothing is said anew. */
  lemma {:induction false} SuccessFind(cs: seq<Condition>, n: int, expected: int)
    requires n >= 0
    ensures var r := AfterSuccess(cs, Some(n), expected).value;
            && Find(r, FailedType) == Find(Invalidated(cs), FailedType)
            && (n <= expected ==>
                  && Find(r, "Provisioning") ==
                     Some(Condition("Provisioning", n != expected,
                                    if n == expected then FinishedProvisioning else ProvisioningInProgress, ""))
                  && IsTrue(r, "Deployed") == (n > 0 || expected == 0))
            && (n > expected && n > 0 ==>
                  Find(r, Provisioning) == Find(cs, Provisioning) && Find(r, Deployed) == Find(cs, Deployed))
  {
    var base := Invalidated(cs);
    InvalidatedFind(cs, Provisioning);
    InvalidatedFind(cs, Deployed);
    if expected == n {
      SetTwoFind(base, true, false, FinishedProvisioning);
    } else if 0 < n < expected {
      SetTwoFind(base, true, true, ProvisioningInProgress);
    } else if n == 0 {
      SetTwoFind(base, false, true, ProvisioningInProgress);
    }
  }

  lemma SetsDistinct(cs: seq<Condition>, a: Condition, b: Condition)
    requires Distinct(cs)
    ensures Distinct(Set(cs, a)) && Distinct(Set(Set(cs, a), b))
  {
    SetDistinct(cs, a);
    SetDistinct(Set(cs, a), b);
  }

  lemma {:induction false} ComputedDistinct(cs: seq<Condition>, r: Reconcile)
    requires Distinct(cs)
    ensures Computed(cs, r).Some? ==> Distinct(Computed(cs, r).value)
  {
    match r
    case Failure(reason, message, retried, available) =>
      var f := FailedCondition(true, reason, message);
      var p := if retried then ProvisioningCondition(true, ProvisioningInProgress)
               else ProvisioningCondition(false, FailedProvisioning);
      SetsDistinct(cs, f, p);
      if available.Some? { SetDistinct(Set(Set(cs, f), p), DeployedCondition(available.value > 0)); }
    case Success(available, expected) =>
      var f := Find(cs, FailedType);
      if f.Some? { SetDistinct(cs, FailedCondition(false, f.value.reason, f.value.message)); }
      var base := Invalidated(cs);
      SetsDistinct(base, DeployedCondition(true), ProvisioningCondition(false, FinishedProvisioning));
      SetsDistinct(base, DeployedCondition(true), ProvisioningCondition(true, ProvisioningInProgress));
      SetsDistinct(base, DeployedCondition(false), ProvisioningCondition(true, ProvisioningInProgress));
  }

  lemma {:induction false} StatusDistinct(events: seq<Event>)
    ensures Distinct(Status(events))
    decreases |events|
  {
    if events != [] {
      StatusDistinct(events[..|events| - 1]);
      ComputedDistinct(Status(events[..|events| - 1]), events[|events| - 1].reconcile);
    }
  }

  predicate FailedAgrees(found: Option<Condition>, last: Option<Event>, failure: Option<Reconcile>) {
    match failure
    case None => found.None?
    case Some(f) =>
      && f.Failure? && last.Some?
      && found == Some(Condition("Failed", last.value.reconcile.Failure?, f.reason, f.message))
  }

  /**
   Over any history: Failed is True exactly when the last persisted reconcile failed, it keeps the reason
   and message of the most recent failure, and it is there at all only after a failure.
   */
  lemma {:induction false} FailedOverHistory(events: seq<Event>)
    ensures FailedAgrees(Find(Status(events), FailedType), LastPersisted(events), LastFailure(events))
    decreases |events|
  {
    if events != [] {
      var init, e := events[..|events| - 1], events[|events| - 1];
      FailedOverHistory(init);
      var cs := Status(init);
      if Persisted(e) {
        match e.reconcile
        case Failure(reason, message, retried, available) =>
          FailureFind(cs, reason, message, retried, available.value);
        case Success(available, expected) =>
          InvalidatedFind(cs, FailedType);
          SuccessFailedFind(cs, available.value, expected);
      }
    }
  }

  /** Whatever the numbers, a success touches Failed only by invalidating it. */
  lemma {:induction false} SuccessFailedFind(cs: seq<Condition>, n: int, expected: int)
    ensures Find(AfterSuccess(cs, Some(n), expected).value, FailedType) == Find(Invalidated(cs), FailedType)
  {
    var base := Invalidated(cs);
    SetTwoFind(base, true, false, FinishedProvisioning);
    SetTwoFind(base, true, true, ProvisioningInProgress);
    SetTwoFind(base, false, true, ProvisioningInProgress);
  }

  /** What the status says after a history that ends with a persisted success, or a persisted failure. */
  lemma {:induction false} StatusAfterLast(events: seq<Event>)
    requires events != [] && Persisted(events[|events| - 1]) && events[|events| - 1].reconcile.available.value >= 0
    ensures var cs, before := Status(events), Status(events[..|events| - 1]);
            match events[|events| - 1].reconcile
            case Failure(reason, message, retried, available) =>
              IsTrue(cs, Provisioning) == retried && IsTrue(cs, Deployed) == (available.value > 0)
            case Success(available, expected) =>
              if available.value <= expected then
                && IsTrue(cs, Provisioning) == (available.value != expected)
                && IsTrue(cs, Deployed) == (available.value > 0 || expected == 0)
              else available.value > 0 ==>
                Find(cs, Provisioning) == Find(before, Provisioning) && Find(cs, Deployed) == Find(before, Deployed)
  {
    var before := Status(events[..|events| - 1]);
    match events[|events| - 1].reconcile
    case Failure(reason, message, retried, available) =>
      FailureFind(before, reason, message, retried, available.value);
    case Success(available, expected) => SuccessFind(before, available.value, expected);
  }

  // ------------------------------------------------------------------ the handler

  /** The instance the handler works on and the status the server holds. */
  class StatusHandler {
    var stored: seq<Condition>

    constructor ()
      ensures stored == []
    {
      stored := [];
    }

    /** HandleStatusUpdate: conditions are set one after the other on a copy, which is written last. */
    method HandleStatusUpdate(e: Event)
      modifies this
      ensures stored == Handled(old(stored), e)
    {
      var conditions := stored;
      match e.reconcile {
      case Failure(reason, message, retried, available) =>
        conditions := Set(conditions, FailedCondition(true, reason, message));
        if retried {
          conditions := Set(conditions, ProvisioningCondition(true, ProvisioningInProgress));
        } else {
          conditions := Set(conditions, ProvisioningCondition(false, FailedProvisioning));
        }
        if available == None { return; }
        conditions := Set(conditions, DeployedCondition(available.value > 0));
      case Success(available, expected) =>
        var failed := Find(conditions, FailedType);
        if failed != None {
          conditions := Set(conditions, FailedCondition(false, failed.value.reason, failed.value.message));
        }
        if available == None { return; }
        if expected == available.value {
          conditions := Set(conditions, DeployedCondition(true));
          conditions := Set(conditions, ProvisioningCondition(false, FinishedProvisioning));
        } else if available.value > 0 && available.value < expected {
          conditions := Set(conditions, DeployedCondition(true));
          conditions := Set(conditions, ProvisioningCondition(true, ProvisioningInProgress));
        } else if available.value == 0 {
          conditions := Set(conditions, DeployedCondition(false));
          conditions := Set(conditions, ProvisioningCondition(true, ProvisioningInProgress));
        }
      }
      if e.stored { stored := conditions; }
    }
  }
}
