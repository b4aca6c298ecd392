/** What holds when the operator goes idle, over every interleaving of a run. */
module ReconcileProofs {
  import opened Results
  import opened Metadata
  import opened Cluster
  import opened Hashed
  import opened Conditions
  import opened WorkQueue
  import opened Operator
  import opened Reconcile
  import GrpcCopy
  import Status
  import StatusRuns

  // ---------- Queue and status ----------

  /** The key is certain to be processed some time. */
  ghost predicate KeyPending(c: Config, q: QueueState) {
    CmoKey(c) in q.dirty || CmoKey(c) in q.waiting
  }

  ghost predicate Reports(status: Option<Status.View>, ok: bool) {
    && (StatusRuns.Is(status, Available, ConditionTrue) <==> ok)
    && (StatusRuns.Is(status, Degraded, ConditionTrue) <==> !ok)
  }

  ghost predicate QueueInv(c: Config, s: System) {
    && Valid(s.queue)
    && s.queue.processing == (if s.worker.Idle? then {} else {CmoKey(c)})
    && s.queue.dirty <= {CmoKey(c)} && s.queue.waiting <= {CmoKey(c)}
  }

  ghost predicate TruthInv(c: Config, s: System) {
    s.worker.Idle? && s.lastSync.Some? ==>
      Reports(s.status, s.lastSync.value) && (!s.lastSync.value ==> KeyPending(c, s.queue))
  }

  lemma DoneReports(stored: Option<Status.View>, version: string, env: Status.Env, related: seq<Status.ObjectReference>)
    requires WritesThrough(env)
    ensures Reports(Status.Step(stored, Status.Call(Status.Done, version, env), related), true)
  {
  }

  lemma FailedReports(stored: Option<Status.View>, error: string, reason: string, version: string,
                      env: Status.Env, related: seq<Status.ObjectReference>)
    requires WritesThrough(env)
    ensures Reports(Status.Step(stored, Status.Call(Status.Failed(error, reason), version, env), related), false)
  {
    var call := Status.Call(Status.Failed(error, reason), version, env);
    var seen := Status.Opened(stored, env, related).1.value;
    Status.StepWrites(stored, call, related, Status.Written(seen, call, related));
    WrittenFailedReports(seen, error, reason, version, env, related);
  }

  lemma WrittenFailedReports(seen: Status.View, error: string, reason: string, version: string,
                             env: Status.Env, related: seq<Status.ObjectReference>)
    ensures Reports(Some(Status.Written(seen, Status.Call(Status.Failed(error, reason), version, env), related)), false)
  {
    FailedTableReports(Base(env.now) + seen.table, error, Status.PascalCase.Pascal(reason), env.now);
  }

  lemma FailedTableReports(t: Table, error: string, reason: string, now: int)
    ensures var u := Status.FailedTable(t, error, reason, now);
            && Available in u && u[Available].status == ConditionFalse
            && Degraded in u && u[Degraded].status == ConditionTrue
  {
  }

  lemma QueueInvNext(g: Setting, s: System, a: Action)
    requires QueueInv(g.config, s) && Enabled(g, s, a)
    ensures QueueInv(g.config, Next(g, s, a))
  {
    match a {
      case Deliver(event) => AddedValid(s.queue, CmoKey(g.config));
      case Release(queued) => AddedValid(s.queue.(waiting := s.queue.waiting - {queued}), queued);
      case Begin => TakenValid(s.queue);
      case ConfigFails(_, _) => FinishedValid(BackedOff(s.queue, CmoKey(g.config)), CmoKey(g.config));
      case SyncEnds(_, _, _) =>
        FinishedValid(if AllSucceeded(s.worker) then s.queue else BackedOff(s.queue, CmoKey(g.config)), CmoKey(g.config));
      case _ =>
    }
  }

  lemma TruthInvNext(g: Setting, s: System, a: Action)
    requires QueueInv(g.config, s) && TruthInv(g.config, s) && Enabled(g, s, a)
    ensures TruthInv(g.config, Next(g, s, a))
  {
    match a {
      case ConfigFails(env, error) =>
        FailedReports(s.status, error, "InvalidConfiguration", g.version, env, g.related);
      case SyncEnds(env, error, reason) =>
        DoneReports(s.status, g.version, env, g.related);
        FailedReports(s.status, error, reason, g.version, env, g.related);
      case _ =>
    }
  }

  lemma {:induction false} TruthThroughout(g: Setting, objects: Objects<string>, actions: seq<Action>)
    ensures Run(g, Start(objects), actions).Some? ==>
              QueueInv(g.config, Run(g, Start(objects), actions).value) &&
              TruthInv(g.config, Run(g, Start(objects), actions).value)
  {
    if actions != [] {
      var n := |actions| - 1;
      TruthThroughout(g, objects, actions[..n]);
      var t := Run(g, Start(objects), actions[..n]);
      if t.Some? && Enabled(g, t.value, actions[n]) {
        QueueInvNext(g, t.value, actions[n]);
        TruthInvNext(g, t.value, actions[n]);
      }
    }
  }

  /**
    An idle operator reports truthfully: whenever the worker is idle after a sync, the status is
    Available and not Degraded if that sync succeeded, and Degraded and not Available if it failed; a
    failed sync leaves the key pending, so that quiescence after a first sync implies Available.
   */
  lemma IdleReportsTruth(g: Setting, objects: Objects<string>, actions: seq<Action>)
    requires Run(g, Start(objects), actions).Some?
    ensures var s := Run(g, Start(objects), actions).value;
            && (s.worker.Idle? && s.lastSync.Some? ==> Reports(s.status, s.lastSync.value))
            && (s.worker.Idle? && s.lastSync == Some(false) ==> KeyPending(g.config, s.queue))
            && (Quiescent(g.config, s) && s.lastSync.Some? ==> s.lastSync == Some(true) && Reports(s.status, true))
  {
    TruthThroughout(g, objects, actions);
  }

  // ---------- No watched event is lost ----------

  /** The event an action gives rise to. */
  function Emitted(c: Config, a: Action): Option<string> {
    match a
    case Emit(event) => Some(event)
    case Write(key, _, event) => Some(if key == GrpcKey(c) then GrpcEvent(c) else event)
    case RotateEnds(grpc, _) => if grpc.Some? then Some(GrpcEvent(c)) else None
    case _ => None
  }

  /** The objects the operator watches, by the keys of their events. */
  ghost predicate Watched(c: Config, event: string) {
    event in {
      c.namespace + "/" + c.configMapName,
      c.namespaceUserWorkload + "/" + c.userWorkloadConfigMapName,
      "kube-system/extension-apiserver-authentication",
      "openshift-config-managed/kubelet-serving-ca",
      "openshift-config/etcd-metrics-serving-ca",
      "openshift-monitoring/prometheus-adapter-tls",
      "openshift-monitoring/telemeter-trusted-ca-bundle",
      "openshift-monitoring/alertmanager-trusted-ca-bundle",
      "openshift-monitoring/grpc-tls"
    }
  }

  lemma WatchedTriggers(c: Config, event: string)
    ensures Watched(c, event) <==> Triggers(c, event)
  {
  }

  ghost predicate Underway(c: Config, s: System, event: string) {
    event in s.events || KeyPending(c, s.queue)
  }

  lemma UnderwayNext(g: Setting, s: System, a: Action, event: string)
    requires Emitted(g.config, a) == Some(event) || (Underway(g.config, s, event) && !a.Begin?)
    ensures Triggers(g.config, event) && Enabled(g, s, a) ==> Underway(g.config, Next(g, s, a), event)
  {
  }

  /** An event that triggers is under way at the end of a run, if that is possible. */
  ghost predicate UnderwayAtEnd(g: Setting, objects: Objects<string>, actions: seq<Action>, event: string) {
    Run(g, Start(objects), actions).Some? ==> Underway(g.config, Run(g, Start(objects), actions).value, event)
  }

  lemma UnderwayAtNextEnd(g: Setting, objects: Objects<string>, actions: seq<Action>, event: string)
    requires actions != [] && Triggers(g.config, event)
    requires var a := actions[|actions| - 1];
             Emitted(g.config, a) == Some(event) ||
             (UnderwayAtEnd(g, objects, actions[..|actions| - 1], event) && !a.Begin?)
    ensures UnderwayAtEnd(g, objects, actions, event)
  {
    var n := |actions| - 1;
    var t := Run(g, Start(objects), actions[..n]);
    if t.Some? {
      UnderwayNext(g, t.value, actions[n], event);
    }
  }

  lemma {:induction false} UnderwaySince(g: Setting, objects: Objects<string>, actions: seq<Action>, i: nat, event: string)
    requires i < |actions| && Emitted(g.config, actions[i]) == Some(event) && Triggers(g.config, event)
    requires forall j :: i < j < |actions| ==> !actions[j].Begin?
    ensures UnderwayAtEnd(g, objects, actions, event)
    decreases |actions|
  {
    if i < |actions| - 1 {
      UnderwaySince(g, objects, actions[..|actions| - 1], i, event);
    }
    UnderwayAtNextEnd(g, objects, actions, event);
  }

  /**
    No watched event is lost: in any run that comes to rest, after every event of every watched object,
    whoever caused it and whatever the worker was doing, a sync has begun.
   */
  lemma WatchedEventStartsSync(g: Setting, objects: Objects<string>, actions: seq<Action>, i: nat, event: string)
    requires Run(g, Start(objects), actions).Some? && Quiescent(g.config, Run(g, Start(objects), actions).value)
    requires i < |actions| && Emitted(g.config, actions[i]) == Some(event) && Watched(g.config, event)
    ensures exists j :: i < j < |actions| && actions[j].Begin?
  {
    if forall j :: i < j < |actions| ==> !actions[j].Begin? {
      WatchedTriggers(g.config, event);
      UnderwaySince(g, objects, actions, i, event);
    }
  }

  ghost predicate Unstarted(c: Config, s: System) {
    s.worker.Idle? && s.queue == EMPTY && forall e :: e in s.events ==> !Watched(c, e)
  }

  /** And nothing else starts one: while no watched event has been emitted, the worker idles. */
  lemma {:induction false} UnwatchedStartsNothing(g: Setting, objects: Objects<string>, actions: seq<Action>)
    requires Run(g, Start(objects), actions).Some?
    requires forall i :: 0 <= i < |actions| && Emitted(g.config, actions[i]).Some? ==>
               !Watched(g.config, Emitted(g.config, actions[i]).value)
    ensures Unstarted(g.config, Run(g, Start(objects), actions).value)
  {
    if actions != [] {
      var n := |actions| - 1;
      UnwatchedStartsNothing(g, objects, actions[..n]);
      UnwatchedStep(g, Run(g, Start(objects), actions[..n]).value, actions[n]);
    }
  }

  lemma UnwatchedStep(g: Setting, s: System, a: Action)
    requires Unstarted(g.config, s)
    requires Emitted(g.config, a).Some? ==> !Watched(g.config, Emitted(g.config, a).value)
    ensures Enabled(g, s, a) ==> Unstarted(g.config, Next(g, s, a))
  {
    if a.Deliver? {
      WatchedTriggers(g.config, a.event);
    }
  }

  // ---------- The copy ----------

  /** News of a gRPC secret that may differ from what was read is on its way, or has already reached the queue. */
  ghost predicate Signal(c: Config, s: System) {
    GrpcEvent(c) in s.events || KeyPending(c, s.queue)
  }

  ghost predicate IsCopy(c: Config, a: Addressed<string>) {
    && WellLabelled(a) && a.name == COPY_NAME
    && a.key == Key(Secret, c.namespace, COPY_NAME + "-" + a.hash)
    && a.key != GrpcKey(c)
  }

  /** What was read is still what is stored, unless there is news. */
  ghost predicate Current(c: Config, s: System, a: Addressed<string>) {
    && IsCopy(c, a)
    && (Signal(c, s) || (GrpcKey(c) in s.objects && a == CopyNow(c, s.objects[GrpcKey(c)])))
  }

  ghost predicate Placed(c: Config, o: Objects<string>, a: Addressed<string>) {
    && a.key in Copies(c, o)
    && o[a.key].data == a.obj.data
    && HASH_LABEL in o[a.key].labels && o[a.key].labels[HASH_LABEL] == a.hash
  }

  ghost predicate PhaseInv(c: Config, s: System) {
    s.worker.Syncing? ==>
      match s.worker.copy
      case CopyPending => true
      case CopyFailed => true
      case CopyRead(a) => Current(c, s, a)
      case CopyStored(a) => Current(c, s, a) && Placed(c, s.objects, a)
      case CopyDeleting(a, doomed) =>
        Current(c, s, a) && Placed(c, s.objects, a) && doomed == Copies(c, s.objects) - {a.key}
      case CopyDone(a) => Current(c, s, a) && Placed(c, s.objects, a) && Copies(c, s.objects) == {a.key}
  }

  ghost predicate CopyInv(c: Config, s: System) {
    && WellNamed(c, s.objects)
    && PhaseInv(c, s)
    && (s.worker.Idle? && s.lastSync == Some(true) ==> Signal(c, s) || Consistent(c, s.objects))
  }

  lemma CopyIsCopy(c: Config, grpc: Object<string>)
    ensures IsCopy(c, CopyNow(c, grpc))
  {
  }

  /** Writes that keep off the copies: what matters stays, or there is news. */
  lemma WriteKeeps(c: Config, s: System, key: Key, obj: Option<Object<string>>, event: string)
    requires HandsOff(c, s.objects, key, obj) && WellNamed(c, s.objects)
    ensures var t := AfterWrite(c, s, key, obj, event);
            && WellNamed(c, t.objects)
            && Copies(c, t.objects) == Copies(c, s.objects)
            && (forall k :: k in Copies(c, s.objects) ==> t.objects[k] == s.objects[k])
            && (Signal(c, s) ==> Signal(c, t))
            && (!Signal(c, t) && GrpcKey(c) in s.objects ==>
                  GrpcKey(c) in t.objects && t.objects[GrpcKey(c)] == s.objects[GrpcKey(c)])
  {
  }

  /** So a write by others keeps what holds of the copy. */
  lemma WriteCopyInv(c: Config, s: System, key: Key, obj: Option<Object<string>>, event: string)
    requires HandsOff(c, s.objects, key, obj) && CopyInv(c, s)
    ensures CopyInv(c, AfterWrite(c, s, key, obj, event))
  {
    WriteKeeps(c, s, key, obj, event);
  }

  /** The same holds of any step that leaves the objects alone and loses no news. */
  lemma NewsKept(c: Config, s: System, t: System)
    requires CopyInv(c, s) && t.objects == s.objects && t.worker == s.worker && t.lastSync == s.lastSync
    requires Signal(c, s) ==> Signal(c, t)
    ensures CopyInv(c, t)
  {
  }

  lemma DeliverKeepsNews(c: Config, s: System, event: string)
    requires Triggers(c, GrpcEvent(c)) && event in s.events && Signal(c, s)
    ensures Signal(c, s.(events := s.events - multiset{event}, queue := Handled(c, s.queue, event)))
  {
  }

  lemma StoreCopyInv(c: Config, s: System)
    requires CopyInv(c, s) && s.worker.Syncing? && s.worker.copy.CopyRead?
    ensures var a := s.worker.copy.copy;
            CopyInv(c, SetCopy(s.(objects := Stored(s.objects, a)), CopyStored(a)))
  {
    var a := s.worker.copy.copy;
    var o := Stored(s.objects, a);
    PutKeepsLabels(s.objects, a);
    assert forall k :: k in Copies(c, o) <==> k in Copies(c, s.objects) || k == a.key;
    assert WellNamed(c, o);
    assert Placed(c, o, a);
  }

  lemma ListCopyInv(c: Config, s: System)
    requires CopyInv(c, s) && s.worker.Syncing? && s.worker.copy.CopyStored?
    ensures var a := s.worker.copy.copy;
            CopyInv(c, SetCopy(s, CopyDeleting(a, Stale(s.objects, a))))
  {
  }

  lemma DeleteCopyInv(c: Config, s: System, key: Key)
    requires CopyInv(c, s) && s.worker.Syncing? && s.worker.copy.CopyDeleting? && key in s.worker.copy.doomed
    ensures CopyInv(c, SetCopy(s.(objects := s.objects - {key}), s.worker.copy.(doomed := s.worker.copy.doomed - {key})))
  {
  }

  lemma EndCopyInv(g: Setting, s: System, a: Action)
    requires a.SyncEnds? && Enabled(g, s, a) && CopyInv(g.config, s)
    ensures CopyInv(g.config, Next(g, s, a))
  {
  }

  predicate CopyAction(a: Action) {
    a.CopyReads? || a.CopyStores? || a.CopyLists? || a.CopyDeletes? || a.CopyEnds? || a.CopyFails?
  }

  lemma CopyActionInv(g: Setting, s: System, a: Action)
    requires CopyAction(a) && CopyInv(g.config, s) && Enabled(g, s, a)
    ensures CopyInv(g.config, Next(g, s, a))
  {
    var c := g.config;
    match a {
      case CopyReads => CopyIsCopy(c, s.objects[GrpcKey(c)]);
      case CopyStores => StoreCopyInv(c, s);
      case CopyLists => ListCopyInv(c, s);
      case CopyDeletes(key) => DeleteCopyInv(c, s, key);
      case CopyEnds =>
      case CopyFails =>
    }
  }

  lemma WriteActionInv(g: Setting, s: System, a: Action)
    requires a.Write? || a.RotateEnds?
    requires CopyInv(g.config, s) && Enabled(g, s, a)
    ensures CopyInv(g.config, Next(g, s, a))
  {
    match a {
      case Write(key, obj, event) => WriteCopyInv(g.config, s, key, obj, event);
      case RotateEnds(grpc, ok) =>
        if grpc.Some? {
          WriteCopyInv(g.config, s, GrpcKey(g.config), grpc, "");
        }
    }
  }

  lemma CopyInvNext(g: Setting, s: System, a: Action)
    requires Triggers(g.config, GrpcEvent(g.config))
    requires CopyInv(g.config, s) && Enabled(g, s, a)
    ensures CopyInv(g.config, Next(g, s, a))
  {
    if CopyAction(a) {
      CopyActionInv(g, s, a);
    } else if a.Write? || a.RotateEnds? {
      WriteActionInv(g, s, a);
    } else if a.SyncEnds? {
      EndCopyInv(g, s, a);
    } else if a.Emit? || a.Deliver? || a.Release? {
      if a.Deliver? && Signal(g.config, s) {
        DeliverKeepsNews(g.config, s, a.event);
      }
      NewsKept(g.config, s, Next(g, s, a));
    }
  }

  lemma {:induction false} CopyInvThroughout(g: Setting, objects: Objects<string>, actions: seq<Action>)
    requires Triggers(g.config, GrpcEvent(g.config)) && WellNamed(g.config, objects)
    ensures Run(g, Start(objects), actions).Some? ==> CopyInv(g.config, Run(g, Start(objects), actions).value)
  {
    if actions != [] {
      var n := |actions| - 1;
      CopyInvThroughout(g, objects, actions[..n]);
      var t := Run(g, Start(objects), actions[..n]);
      if t.Some? && Enabled(g, t.value, actions[n]) {
        CopyInvNext(g, t.value, actions[n]);
      }
    }
  }

  /**
    Idle implies consistent: where events of the gRPC secret trigger a reconcile, in every reachable
    state with no event under way, the key neither in line, processing nor backing off, and at least
    one sync behind it, there is exactly one copy and it carries the current values of the secret.
   */
  lemma IdleImpliesConsistent(g: Setting, objects: Objects<string>, actions: seq<Action>)
    requires Triggers(g.config, GrpcEvent(g.config)) && WellNamed(g.config, objects)
    requires Run(g, Start(objects), actions).Some?
    ensures var s := Run(g, Start(objects), actions).value;
            Quiescent(g.config, s) && s.lastSync.Some? ==> Consistent(g.config, s.objects)
  {
    CopyInvThroughout(g, objects, actions);
    IdleReportsTruth(g, objects, actions);
  }

  // ---------- Where the trigger key does not apply ----------

  ghost predicate Reaches(g: Setting, s: System, t: System) {
    exists actions :: Run(g, s, actions) == Some(t)
  }

  lemma ReachesSelf(g: Setting, s: System)
    ensures Reaches(g, s, s)
  {
    assert Run(g, s, []) == Some(s);
  }

  lemma ReachesNext(g: Setting, s: System, t: System, a: Action)
    requires Reaches(g, s, t) && Enabled(g, t, a)
    ensures Reaches(g, s, Next(g, t, a))
  {
    var actions :| Run(g, s, actions) == Some(t);
    assert (actions + [a])[..|actions|] == actions;
    assert Run(g, s, actions + [a]) == Some(Next(g, t, a));
  }

  function GrpcWith(ca: string): Object<string> {
    Object(map[], map[], map["ca.crt" := ca])
  }

  const FINE_ENV := Status.Env(0, 0, false, Status.Created, false)

  function Busy(c: Config): QueueState {
    QueueState([], {}, {CmoKey(c)}, {})
  }

  lemma BeginsSync(g: Setting, o: Objects<string>) returns (status: Option<Status.View>)
    ensures Reaches(g, Start(o), System(o, multiset{}, Busy(g.config), Syncing(Pending, CopyPending, Pending), None, status))
  {
    var k := CmoKey(g.config);
    ReachesSelf(g, Start(o));
    ReachesNext(g, Start(o), Start(o), Emit(k));
    var s1 := System(o, multiset{k}, EMPTY, Idle, None, None);
    assert Next(g, Start(o), Emit(k)) == s1;
    ReachesNext(g, Start(o), s1, Deliver(k));
    var s2 := System(o, multiset{}, QueueState([k], {k}, {}, {}), Idle, None, None);
    assert Next(g, s1, Deliver(k)) == s2;
    ReachesNext(g, Start(o), s2, Begin);
    var s3 := System(o, multiset{}, Busy(g.config), Loading, None, None);
    assert Next(g, s2, Begin) == s3;
    ReachesNext(g, Start(o), s3, ConfigLoads(FINE_ENV));
    status := Next(g, s3, ConfigLoads(FINE_ENV)).status;
  }

  lemma CopiesAll(g: Setting, o: Objects<string>, status: Option<Status.View>, s: System)
    requires s == System(o, multiset{}, Busy(g.config), Syncing(Pending, CopyPending, Pending), None, status)
    requires GrpcKey(g.config) in o && GrpcCopy.Ready(o[GrpcKey(g.config)]) && Copies(g.config, o) == {}
    requires Reaches(g, Start(o), s)
    ensures var a := CopyNow(g.config, o[GrpcKey(g.config)]);
            Reaches(g, Start(o), System(Stored(o, a), multiset{}, Busy(g.config), Syncing(Pending, CopyDone(a), Pending), None, status))
  {
    var a := CopyNow(g.config, o[GrpcKey(g.config)]);
    CopyIsCopy(g.config, o[GrpcKey(g.config)]);
    ReachesNext(g, Start(o), s, CopyReads);
    var s1 := SetCopy(s, CopyRead(a));
    ReachesNext(g, Start(o), s1, CopyStores);
    var s2 := SetCopy(s.(objects := Stored(o, a)), CopyStored(a));
    ReachesNext(g, Start(o), s2, CopyLists);
    PutKeepsLabels(o, a);
    assert Stale(o, a) <= Copies(g.config, o);
    assert Stale(Stored(o, a), a) == {};
    var s3 := SetCopy(s2, CopyDeleting(a, {}));
    ReachesNext(g, Start(o), s3, CopyEnds);
  }

  lemma DriftsAway(g: Setting, o: Objects<string>, p: Objects<string>, a: Addressed<string>,
                   status: Option<Status.View>, grpc: Object<string>) returns (t: System)
    requires !Triggers(g.config, GrpcEvent(g.config))
    requires Reaches(g, Start(o), System(p, multiset{}, Busy(g.config), Syncing(Pending, CopyDone(a), Pending), None, status))
    requires HandsOff(g.config, p, GrpcKey(g.config), Some(grpc))
    ensures Reaches(g, Start(o), t) && Quiescent(g.config, t) && t.lastSync == Some(true)
    ensures t.objects == p[GrpcKey(g.config) := grpc]
  {
    var c := g.config;
    var q := p[GrpcKey(c) := grpc];
    var news := multiset{GrpcEvent(c)};
    var s0 := System(p, multiset{}, Busy(c), Syncing(Pending, CopyDone(a), Pending), None, status);
    ReachesNext(g, Start(o), s0, RotateEnds(Some(grpc), true));
    var s1 := System(q, news, Busy(c), Syncing(Succeeded, CopyDone(a), Pending), None, status);
    assert Next(g, s0, RotateEnds(Some(grpc), true)) == s1;
    ReachesNext(g, Start(o), s1, OthersEnd(true));
    t := ComesToRest(g, o, q, a, status);
  }

  lemma ComesToRest(g: Setting, o: Objects<string>, q: Objects<string>, a: Addressed<string>, status: Option<Status.View>)
      returns (t: System)
    requires !Triggers(g.config, GrpcEvent(g.config))
    requires Reaches(g, Start(o), System(q, multiset{GrpcEvent(g.config)}, Busy(g.config),
                                         Syncing(Succeeded, CopyDone(a), Succeeded), None, status))
    ensures Reaches(g, Start(o), t) && Quiescent(g.config, t) && t.lastSync == Some(true) && t.objects == q
  {
    var c := g.config;
    var s2 := System(q, multiset{GrpcEvent(c)}, Busy(c), Syncing(Succeeded, CopyDone(a), Succeeded), None, status);
    ReachesNext(g, Start(o), s2, SyncEnds(FINE_ENV, "", ""));
    var s3 := Next(g, s2, SyncEnds(FINE_ENV, "", ""));
    assert s3.queue == EMPTY && s3.worker == Idle && s3.objects == q;
    ReachesNext(g, Start(o), s3, Deliver(GrpcEvent(c)));
    t := Next(g, s3, Deliver(GrpcEvent(c)));
    assert t.events == multiset{};
  }

  lemma DifferentCopies(c: Config)
    ensures CopyNow(c, GrpcWith("x")).obj.data != CopyNow(c, GrpcWith("y")).obj.data
  {
  }

  /**
    Where events of the operator's own gRPC secret trigger nothing, a rotation that follows the copying
    task within one sync goes unnoticed: the operator comes to rest over an outdated copy.
   */
  lemma UntriggeredOperatorDrifts(g: Setting) returns (o: Objects<string>, t: System)
    requires !Triggers(g.config, GrpcEvent(g.config))
    ensures WellNamed(g.config, o) && Reaches(g, Start(o), t)
    ensures Quiescent(g.config, t) && t.lastSync == Some(true) && !Consistent(g.config, t.objects)
  {
    var c := g.config;
    var key := GrpcKey(c);
    o := map[key := GrpcWith("x")];
    assert Copies(c, o) == {};
    var status := BeginsSync(g, o);
    CopiesAll(g, o, status, System(o, multiset{}, Busy(c), Syncing(Pending, CopyPending, Pending), None, status));
    var a := CopyNow(c, GrpcWith("x"));
    CopyIsCopy(c, GrpcWith("x"));
    var p := Stored(o, a);
    assert key !in Copies(c, p);
    t := DriftsAway(g, o, p, a, status, GrpcWith("y"));
    StaleCopyIsInconsistent(c, o, a);
  }

  lemma StaleCopyIsInconsistent(c: Config, o: Objects<string>, a: Addressed<string>)
    requires a == CopyNow(c, GrpcWith("x")) && IsCopy(c, a)
    ensures !Consistent(c, Stored(o, a)[GrpcKey(c) := GrpcWith("y")])
  {
    var t := Stored(o, a)[GrpcKey(c) := GrpcWith("y")];
    PutKeepsLabels(o, a);
    DifferentCopies(c);
    assert a.key in Copies(c, t) && t[a.key].data == a.obj.data;
  }

  /**
    Why others must keep their hands off the copies: where one deletes the copy under an operator at
    rest, the operator rests on without a copy, unless the event of that deletion triggers.
   */
  lemma CopyLossUnnoticedExactly(c: Config, s: System, event: string)
    requires Quiescent(c, s) && Consistent(c, s.objects)
    ensures var copy := CopyNow(c, s.objects[GrpcKey(c)]).key;
            var t := AfterWrite(c, s, copy, None, event);
            var u := t.(events := t.events - multiset{event}, queue := Handled(c, t.queue, event));
            !Consistent(c, u.objects) && (Quiescent(c, u) <==> !Triggers(c, event))
  {
    var copy := CopyNow(c, s.objects[GrpcKey(c)]).key;
    CopyIsCopy(c, s.objects[GrpcKey(c)]);
    assert copy !in WithObject(s.objects, copy, None);
    assert s.events + multiset{event} - multiset{event} == s.events;
  }

  ghost predicate RestsAfterSync(c: Config, t: System) {
    Quiescent(c, t) && t.lastSync.Some?
  }

  /**
    Exactly: every run from every well-named cluster that comes to rest after a sync rests consistent,
    if and only if events of the gRPC secret in the operator's namespace trigger a reconcile, as they
    do in openshift-monitoring.
   */
  lemma IdleConsistencyExactly(g: Setting)
    ensures (forall o, t | WellNamed(g.config, o) && Reaches(g, Start(o), t) && RestsAfterSync(g.config, t) ::
               Consistent(g.config, t.objects)) <==>
            Triggers(g.config, GrpcEvent(g.config))
    ensures g.config.namespace == "openshift-monitoring" ==> Triggers(g.config, GrpcEvent(g.config))
  {
    if g.config.namespace == "openshift-monitoring" {
      GrpcTriggersInItsNamespace(g.config);
    }
    if Triggers(g.config, GrpcEvent(g.config)) {
      forall o, t | WellNamed(g.config, o) && Reaches(g, Start(o), t) &&
                    RestsAfterSync(g.config, t)
        ensures Consistent(g.config, t.objects)
      {
        var actions :| Run(g, Start(o), actions) == Some(t);
        IdleImpliesConsistent(g, o, actions);
      }
    } else {
      var o, t := UntriggeredOperatorDrifts(g);
    }
  }
}
