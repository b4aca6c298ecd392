/**
  pkg/client/status_reporter.go: the ClusterOperator status as a machine driven by SetDone,
  SetInProgress and SetFailed, each with its own version, clock and API faults, and what its
  conditions say after any run.
 */
module Status {
  import opened Results
  import opened Conditions
  import PascalCase

  datatype ObjectReference = ObjectReference(group: string, resource: string, name: string)

  /** The stored status, as the API server keeps it. */
  datatype StoredStatus = StoredStatus(
    conditions: seq<Condition>, versions: seq<OperandVersion>, related: seq<ObjectReference>)

  /** The same status without the order of its conditions. */
  datatype View = View(table: Table, versions: seq<OperandVersion>, related: seq<ObjectReference>)

  function Viewed(s: StoredStatus): View {
    View(Overlay(map[], s.conditions), s.versions, s.related)
  }

  function ViewedStore(s: Option<StoredStatus>): Option<View> {
    if s.None? then None else Some(Viewed(s.value))
  }

  // ---------- The API, with its faults ----------

  /** How a Create request fares; a server with a status subresource drops the status of a new object. */
  datatype CreateOutcome = Created | CreatedWithoutStatus | CreateNotFound | CreateFailed

  datatype Env = Env(now: int, createdAt: int, getFails: bool, create: CreateOutcome, updateFails: bool)

  datatype Lookup = Found(status: StoredStatus) | NotFound | ApiError

  const EMPTY_STATUS := StoredStatus([], [], [])

  class ClusterOperators {
    var stored: Option<StoredStatus>

    method Get(env: Env) returns (r: Lookup)
      ensures r == if env.getFails then ApiError
                   else if stored.None? then NotFound
                   else Found(stored.value)
    {
      r := if env.getFails then ApiError else if stored.None? then NotFound else Found(stored.value);
    }

    method Create(status: StoredStatus, env: Env) returns (r: Lookup)
      modifies this
      ensures env.create.Created? ==> r == Found(status) && stored == Some(status)
      ensures env.create.CreatedWithoutStatus? ==> r == Found(EMPTY_STATUS) && stored == Some(EMPTY_STATUS)
      ensures env.create.CreateNotFound? ==> r == NotFound && stored == old(stored)
      ensures env.create.CreateFailed? ==> r == ApiError && stored == old(stored)
    {
      match env.create {
        case Created =>
          stored, r := Some(status), Found(status);
        case CreatedWithoutStatus =>
          stored, r := Some(EMPTY_STATUS), Found(EMPTY_STATUS);
        case CreateNotFound =>
          r := NotFound;
        case CreateFailed =>
          r := ApiError;
      }
    }

    /** An update of an object that does not exist fails like any other. */
    method UpdateStatus(status: StoredStatus, env: Env) returns (failed: bool)
      modifies this
      ensures failed <==> env.updateFails || old(stored).None?
      ensures stored == if failed then old(stored) else Some(status)
    {
      failed := env.updateFails || stored.None?;
      if !failed {
        stored := Some(status);
      }
    }
  }

  // ---------- The reporter ----------

  datatype CallKind = Done | InProgress | Failed(error: string, reason: string)

  datatype Call = Call(kind: CallKind, version: string, env: Env)

  function RelatedObjects(namespace: string, userWorkloadNamespace: string): seq<ObjectReference> {
    [ ObjectReference("", "namespaces", namespace),
      ObjectReference("", "namespaces", userWorkloadNamespace),
      ObjectReference("monitoring.coreos.com", "servicemonitors", ""),
      ObjectReference("monitoring.coreos.com", "podmonitors", ""),
      ObjectReference("monitoring.coreos.com", "prometheusrules", ""),
      ObjectReference("monitoring.coreos.com", "alertmanagers", ""),
      ObjectReference("monitoring.coreos.com", "prometheuses", ""),
      ObjectReference("monitoring.coreos.com", "thanosrulers", ""),
      ObjectReference("monitoring.coreos.com", "alertmanagerconfigs", "") ]
  }

  const DONE_MESSAGE := "Successfully rolled out the stack."
  const PROGRESS_MESSAGE := "Rolling out the stack."
  const PROGRESS_UPGRADE_MESSAGE := "Rollout of the monitoring stack is in progress. Please wait until it finishes."
  const FAILED_MESSAGE := "Failed to rollout the stack. Error: "
  const FAILED_UPGRADE_MESSAGE :=
    "Rollout of the monitoring stack failed and is degraded. Please investigate the degraded status error."

  function VersionsFor(version: string): seq<OperandVersion> {
    if |version| > 0 then [OperandVersion("operator", version)] else []
  }

  function DoneTable(t: Table, now: int): Table {
    var t1 := Entered(t, Available, ConditionTrue, DONE_MESSAGE, "RollOutDone", now);
    var t2 := Entered(t1, Progressing, ConditionFalse, "", "", now);
    var t3 := Entered(t2, Degraded, ConditionFalse, "", "", now);
    Entered(t3, Upgradeable, ConditionTrue, "", "", now)
  }

  function InProgressTable(t: Table, current: string, target: string, now: int): Table {
    var t1 := if Suppressed(t, current, target, Progressing, ConditionTrue) then t
              else Entered(t, Progressing, ConditionTrue, PROGRESS_MESSAGE, "RollOutInProgress", now);
    Entered(t1, Upgradeable, ConditionTrue, PROGRESS_UPGRADE_MESSAGE, "RollOutInProgress", now)
  }

  function FailedTable(t: Table, error: string, reason: string, now: int): Table {
    var t1 := Entered(t, Available, ConditionFalse, "", "", now);
    var t2 := Entered(t1, Progressing, ConditionFalse, "", "", now);
    var t3 := Entered(t2, Degraded, ConditionTrue, FAILED_MESSAGE + error, reason, now);
    Entered(t3, Upgradeable, ConditionTrue, FAILED_UPGRADE_MESSAGE, reason, now)
  }

  /** What a call writes over the status it read. */
  function Written(seen: View, call: Call, related: seq<ObjectReference>): View {
    var t := Base(call.env.now) + seen.table;
    match call.kind
    case Done => View(DoneTable(t, call.env.now), VersionsFor(call.version), seen.related)
    case InProgress =>
      View(InProgressTable(t, CurrentVersion(seen.versions), call.version, call.env.now), seen.versions, related)
    case Failed(error, reason) =>
      View(FailedTable(t, error, PascalCase.Pascal(reason), call.env.now), seen.versions, seen.related)
  }

  /** The store after the object has been read or created, and what the call then works from. */
  function Opened(stored: Option<View>, env: Env, related: seq<ObjectReference>): (Option<View>, Option<View>) {
    if env.getFails then (stored, None)
    else if stored.Some? then (stored, stored)
    else
      match env.create
      case Created => var v := View(Base(env.createdAt), [], related); (Some(v), Some(v))
      case CreatedWithoutStatus => var v := View(map[], [], []); (Some(v), Some(v))
      case CreateNotFound => (None, Some(View(map[], [], [])))
      case CreateFailed => (None, None)
  }

  /** A call takes effect when it gets to write its status. */
  predicate Effective(stored: Option<View>, call: Call, related: seq<ObjectReference>) {
    var (after, seen) := Opened(stored, call.env, related);
    seen.Some? && after.Some? && !call.env.updateFails
  }

  function Step(stored: Option<View>, call: Call, related: seq<ObjectReference>): Option<View> {
    var (after, seen) := Opened(stored, call.env, related);
    if Effective(stored, call, related) then Some(Written(seen.value, call, related)) else after
  }

  /** Finishing a call whose object could be opened: write, unless the update fails. */
  lemma StepWrites(stored: Option<View>, call: Call, related: seq<ObjectReference>, written: View)
    requires Opened(stored, call.env, related).1.Some?
    requires written == Written(Opened(stored, call.env, related).1.value, call, related)
    ensures var after := Opened(stored, call.env, related).0;
            var fails := call.env.updateFails || after.None?;
            && Step(stored, call, related) == (if fails then after else Some(written))
            && Effective(stored, call, related) == !fails
  {
  }

  /** Which calls take effect: the object is read or created, and the update goes through. */
  lemma EffectiveExactly(stored: Option<View>, call: Call, related: seq<ObjectReference>)
    ensures Effective(stored, call, related) <==>
            !call.env.getFails && !call.env.updateFails &&
            (stored.Some? || call.env.create.Created? || call.env.create.CreatedWithoutStatus?)
  {
  }

  class StatusReporter {
    const operators: ClusterOperators
    const namespace: string
    const userWorkloadNamespace: string
    const version: string
    const related: seq<ObjectReference>

    constructor (operators: ClusterOperators, namespace: string, userWorkloadNamespace: string, version: string)
      ensures this.operators == operators && this.version == version
      ensures this.namespace == namespace && this.userWorkloadNamespace == userWorkloadNamespace
      ensures this.related == RelatedObjects(namespace, userWorkloadNamespace)
      ensures |related| == 9 && related[0].name == namespace && related[1].name == userWorkloadNamespace
      ensures forall i :: 0 <= i < 2 ==> related[i].group == "" && related[i].resource == "namespaces"
      ensures forall i :: 2 <= i < 9 ==> related[i].group == "monitoring.coreos.com" && related[i].name == ""
      ensures related[2].resource == "servicemonitors" && related[3].resource == "podmonitors"
      ensures related[4].resource == "prometheusrules" && related[5].resource == "alertmanagers"
      ensures related[6].resource == "prometheuses" && related[7].resource == "thanosrulers"
      ensures related[8].resource == "alertmanagerconfigs"
    {
      this.operators := operators;
      this.namespace := namespace;
      this.userWorkloadNamespace := userWorkloadNamespace;
      this.version := version;
      this.related := RelatedObjects(namespace, userWorkloadNamespace);
    }

    method NewClusterOperator(time: int) returns (status: StoredStatus)
      ensures Lists(status.conditions, Base(time))
      ensures status.versions == [] && status.related == related
    {
      var conditions := new ConditionTable([], [], version, time);
      var entries := conditions.Entries();
      status := StoredStatus(entries, [], related);
    }

    /** The reading half all three calls share: get the object, creating it when there is none. */
    method Open(env: Env) returns (failed: bool, status: StoredStatus)
      modifies operators
      ensures var (after, seen) := Opened(old(ViewedStore(operators.stored)), env, related);
              && ViewedStore(operators.stored) == after
              && (failed <==> seen.None?)
              && (!failed ==> Viewed(status) == seen.value)
    {
      var co := operators.Get(env);
      if co.NotFound? {
        var created := NewClusterOperator(env.createdAt);
        ListingReadsBack(created.conditions, Base(env.createdAt));
        co := operators.Create(created, env);
      }
      failed := co.ApiError?;
      status := if co.Found? then co.status else EMPTY_STATUS;
    }

    method ReadTable(status: StoredStatus, now: int) returns (t: ConditionTable)
      ensures fresh(t) && WellKeyed(t.entryMap)
      ensures t.entryMap == Base(now) + Viewed(status).table
      ensures t.currentVersion == CurrentVersion(status.versions) && t.targetVersion == version
    {
      t := new ConditionTable(status.conditions, status.versions, version, now);
      OverlayOnTop(Base(now), status.conditions);
      OverlayDomain(Base(now), status.conditions);
    }

    method Publish(t: ConditionTable, versions: seq<OperandVersion>, related: seq<ObjectReference>, env: Env)
        returns (failed: bool)
      requires WellKeyed(t.entryMap)
      modifies operators
      ensures failed <==> env.updateFails || old(operators.stored).None?
      ensures ViewedStore(operators.stored) ==
              if failed then old(ViewedStore(operators.stored)) else Some(View(t.entryMap, versions, related))
    {
      var entries := t.Entries();
      ListingReadsBack(entries, t.entryMap);
      failed := operators.UpdateStatus(StoredStatus(entries, versions, related), env);
    }

    static method RecordDone(t: ConditionTable, now: int)
      requires WellKeyed(t.entryMap)
      modifies t`entryMap
      ensures WellKeyed(t.entryMap) && t.entryMap == DoneTable(old(t.entryMap), now)
    {
      t.SetCondition(Available, ConditionTrue, DONE_MESSAGE, "RollOutDone", now);
      t.SetCondition(Progressing, ConditionFalse, "", "", now);
      t.SetCondition(Degraded, ConditionFalse, "", "", now);
      t.SetCondition(Upgradeable, ConditionTrue, "", "", now);
    }

    method SetDone(env: Env) returns (failed: bool)
      modifies operators
      ensures ViewedStore(operators.stored) == Step(old(ViewedStore(operators.stored)), Call(Done, version, env), related)
      ensures failed <==> !Effective(old(ViewedStore(operators.stored)), Call(Done, version, env), related)
    {
      ghost var before := ViewedStore(operators.stored);
      var status;
      failed, status := Open(env);
      if failed {
        return;
      }
      var conditions := ReadTable(status, env.now);
      RecordDone(conditions, env.now);
      var versions := if |version| > 0 then [OperandVersion("operator", version)] else [];
      StepWrites(before, Call(Done, version, env), related, View(conditions.entryMap, versions, status.related));
      failed := Publish(conditions, versions, status.related, env);
    }

    static method RecordInProgress(t: ConditionTable, now: int)
      requires WellKeyed(t.entryMap)
      modifies t`entryMap
      ensures WellKeyed(t.entryMap) && t.entryMap == InProgressTable(old(t.entryMap), t.currentVersion, t.targetVersion, now)
    {
      t.SetCondition(Progressing, ConditionTrue, PROGRESS_MESSAGE, "RollOutInProgress", now);
      t.SetCondition(Upgradeable, ConditionTrue, PROGRESS_UPGRADE_MESSAGE, "RollOutInProgress", now);
    }

    method SetInProgress(env: Env) returns (failed: bool)
      modifies operators
      ensures ViewedStore(operators.stored) ==
              Step(old(ViewedStore(operators.stored)), Call(InProgress, version, env), related)
      ensures failed <==> !Effective(old(ViewedStore(operators.stored)), Call(InProgress, version, env), related)
    {
      ghost var before := ViewedStore(operators.stored);
      var status;
      failed, status := Open(env);
      if failed {
        return;
      }
      var conditions := ReadTable(status, env.now);
      RecordInProgress(conditions, env.now);
      StepWrites(before, Call(InProgress, version, env), related, View(conditions.entryMap, status.versions, related));
      failed := Publish(conditions, status.versions, related, env);
    }

    static method RecordFailed(t: ConditionTable, now: int, error: string, pascal: string)
      requires WellKeyed(t.entryMap)
      modifies t`entryMap
      ensures WellKeyed(t.entryMap) && t.entryMap == FailedTable(old(t.entryMap), error, pascal, now)
    {
      t.SetCondition(Available, ConditionFalse, "", "", now);
      t.SetCondition(Progressing, ConditionFalse, "", "", now);
      t.SetCondition(Degraded, ConditionTrue, FAILED_MESSAGE + error, pascal, now);
      t.SetCondition(Upgradeable, ConditionTrue, FAILED_UPGRADE_MESSAGE, pascal, now);
    }

    method SetFailed(error: string, reason: string, env: Env) returns (failed: bool)
      requires PascalCase.Ascii(reason)
      modifies operators
      ensures ViewedStore(operators.stored) ==
              Step(old(ViewedStore(operators.stored)), Call(Failed(error, reason), version, env), related)
      ensures failed <==>
              !Effective(old(ViewedStore(operators.stored)), Call(Failed(error, reason), version, env), related)
    {
      ghost var before := ViewedStore(operators.stored);
      var status;
      failed, status := Open(env);
      if failed {
        return;
      }
      var pascal := PascalCase.ToPascalCase(reason);
      var conditions := ReadTable(status, env.now);
      RecordFailed(conditions, env.now, error, pascal);
      StepWrites(before, Call(Failed(error, reason), version, env), related,
                 View(conditions.entryMap, status.versions, status.related));
      failed := Publish(conditions, status.versions, status.related, env);
    }
  }
}
