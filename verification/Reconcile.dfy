/**
  The reconcile loop as a state machine: informer events, the work queue and its single worker, and
  three concurrent tasks of a sync, namely the one that may rotate the gRPC secret, the one that copies
  it (pkg/tasks/prometheus.go) and all the others together. Every action is one atomic step, and
  actions of different tasks, of other actors and of the event machinery interleave freely.
 */
module Reconcile {
  import opened Results
  import opened Cluster
  import opened Hashed
  import opened WorkQueue
  import opened Operator
  import GrpcCopy
  import Status

  const COPY_NAME := "prometheus-k8s-grpc-tls"

  function GrpcKey(c: Config): Key {
    Key(Secret, c.namespace, "grpc-tls")
  }

  function CopyNow(c: Config, grpc: Object<string>): Addressed<string> {
    GrpcCopy.CopyOf(grpc, c.namespace, COPY_NAME)
  }

  function Copies(c: Config, o: Objects<string>): set<Key> {
    Family(o, Secret, c.namespace, COPY_NAME)
  }

  datatype TaskPhase = Pending | Succeeded | Failed

  datatype CopyPhase =
    | CopyPending
    | CopyRead(copy: Addressed<string>)
    | CopyStored(copy: Addressed<string>)
    | CopyDeleting(copy: Addressed<string>, doomed: set<Key>)
    | CopyDone(copy: Addressed<string>)
    | CopyFailed

  datatype Worker = Idle | Loading | Syncing(rotate: TaskPhase, copy: CopyPhase, others: TaskPhase)

  datatype System = System(
    objects: Objects<string>, events: multiset<string>, queue: QueueState, worker: Worker,
    lastSync: Option<bool>, status: Option<Status.View>)

  datatype Action =
    | Emit(event: string)
    | Write(key: Key, obj: Option<Object<string>>, event: string)
    | Deliver(event: string)
    | Release(queued: string)
    | Begin
    | ConfigFails(env: Status.Env, error: string)
    | ConfigLoads(env: Status.Env)
    | RotateEnds(grpc: Option<Object<string>>, ok: bool)
    | CopyReads
    | CopyStores
    | CopyLists
    | CopyDeletes(key: Key)
    | CopyEnds
    | CopyFails
    | OthersEnd(ok: bool)
    | SyncEnds(env: Status.Env, error: string, reason: string)

  datatype Setting = Setting(config: Config, version: string, related: seq<Status.ObjectReference>)

  function Start(objects: Objects<string>): System {
    System(objects, multiset{}, EMPTY, Idle, None, None)
  }

  /** The status calls are assumed to get through. */
  predicate WritesThrough(env: Status.Env) {
    !env.getFails && !env.updateFails && (env.create.Created? || env.create.CreatedWithoutStatus?)
  }

  /** Other actors keep their hands off the copies and off the operator's labels. */
  predicate HandsOff(c: Config, o: Objects<string>, key: Key, obj: Option<Object<string>>) {
    && key !in Copies(c, o)
    && (obj.Some? ==> !(key.kind == Secret && key.namespace == c.namespace && Labelled(obj.value, COPY_NAME)))
  }

  function WithObject(o: Objects<string>, key: Key, obj: Option<Object<string>>): Objects<string> {
    if obj.Some? then o[key := obj.value] else o - {key}
  }

  /** A write of the gRPC secret, by anyone, is announced by an event. */
  function AfterWrite(c: Config, s: System, key: Key, obj: Option<Object<string>>, event: string): System {
    s.(objects := WithObject(s.objects, key, obj),
       events := s.events + multiset{if key == GrpcKey(c) then GrpcEvent(c) else event})
  }

  predicate AllEnded(w: Worker) {
    w.Syncing? && !w.rotate.Pending? && (w.copy.CopyDone? || w.copy.CopyFailed?) && !w.others.Pending?
  }

  predicate AllSucceeded(w: Worker) {
    w.Syncing? && w.rotate.Succeeded? && w.copy.CopyDone? && w.others.Succeeded?
  }

  function Report(g: Setting, s: System, kind: Status.CallKind, env: Status.Env): Option<Status.View> {
    Status.Step(s.status, Status.Call(kind, g.version, env), g.related)
  }

  /** The queue after a sync: a failed key backs off, and only then is it done with. */
  function QueueAfter(c: Config, q: QueueState, ok: bool): QueueState {
    Finished(if ok then q else BackedOff(q, CmoKey(c)), CmoKey(c))
  }

  function SetCopy(s: System, phase: CopyPhase): System
    requires s.worker.Syncing?
  {
    s.(worker := s.worker.(copy := phase))
  }

  predicate Enabled(g: Setting, s: System, a: Action) {
    match a
    case Emit(_) => true
    case Write(key, obj, _) => HandsOff(g.config, s.objects, key, obj)
    case Deliver(event) => event in s.events
    case Release(queued) => queued in s.queue.waiting
    case Begin => s.worker.Idle? && s.queue.keys != []
    case ConfigFails(env, _) => s.worker.Loading? && WritesThrough(env)
    case ConfigLoads(env) => s.worker.Loading? && WritesThrough(env)
    case RotateEnds(grpc, _) =>
      && s.worker.Syncing? && s.worker.rotate.Pending?
      && (grpc.Some? ==> HandsOff(g.config, s.objects, GrpcKey(g.config), grpc))
    case CopyReads =>
      && s.worker.Syncing? && s.worker.copy.CopyPending?
      && GrpcKey(g.config) in s.objects && GrpcCopy.Ready(s.objects[GrpcKey(g.config)])
    case CopyStores => s.worker.Syncing? && s.worker.copy.CopyRead?
    case CopyLists => s.worker.Syncing? && s.worker.copy.CopyStored?
    case CopyDeletes(key) => s.worker.Syncing? && s.worker.copy.CopyDeleting? && key in s.worker.copy.doomed
    case CopyEnds => s.worker.Syncing? && s.worker.copy.CopyDeleting? && s.worker.copy.doomed == {}
    case CopyFails => s.worker.Syncing? && !s.worker.copy.CopyDone? && !s.worker.copy.CopyFailed?
    case OthersEnd(_) => s.worker.Syncing? && s.worker.others.Pending?
    case SyncEnds(env, _, _) => AllEnded(s.worker) && WritesThrough(env)
  }

  function Next(g: Setting, s: System, a: Action): System
    requires Enabled(g, s, a)
  {
    var c := g.config;
    match a
    case Emit(event) => s.(events := s.events + multiset{event})
    case Write(key, obj, event) => AfterWrite(c, s, key, obj, event)
    case Deliver(event) => s.(events := s.events - multiset{event}, queue := Handled(c, s.queue, event))
    case Release(queued) => s.(queue := Released(s.queue, queued))
    case Begin => s.(queue := Taken(s.queue), worker := Loading)
    case ConfigFails(env, error) =>
      s.(worker := Idle, queue := QueueAfter(c, s.queue, false), lastSync := Some(false),
         status := Report(g, s, Status.Failed(error, "InvalidConfiguration"), env))
    case ConfigLoads(env) =>
      s.(worker := Syncing(Pending, CopyPending, Pending), status := Report(g, s, Status.InProgress, env))
    case RotateEnds(grpc, ok) =>
      var t := if grpc.Some? then AfterWrite(c, s, GrpcKey(c), grpc, "") else s;
      t.(worker := s.worker.(rotate := if ok then Succeeded else Failed))
    case CopyReads => SetCopy(s, CopyRead(CopyNow(c, s.objects[GrpcKey(c)])))
    case CopyStores =>
      SetCopy(s.(objects := Stored(s.objects, s.worker.copy.copy)), CopyStored(s.worker.copy.copy))
    case CopyLists =>
      SetCopy(s, CopyDeleting(s.worker.copy.copy, Stale(s.objects, s.worker.copy.copy)))
    case CopyDeletes(key) =>
      SetCopy(s.(objects := s.objects - {key}), s.worker.copy.(doomed := s.worker.copy.doomed - {key}))
    case CopyEnds => SetCopy(s, CopyDone(s.worker.copy.copy))
    case CopyFails => SetCopy(s, CopyFailed)
    case OthersEnd(ok) => s.(worker := s.worker.(others := if ok then Succeeded else Failed))
    case SyncEnds(env, error, reason) =>
      var ok := AllSucceeded(s.worker);
      s.(worker := Idle, queue := QueueAfter(c, s.queue, ok), lastSync := Some(ok),
         status := Report(g, s, if ok then Status.Done else Status.Failed(error, reason), env))
  }

  /** A run from a start; None when some action of it is not possible. */
  function Run(g: Setting, s: System, actions: seq<Action>): Option<System> {
    if actions == [] then Some(s)
    else
      match Run(g, s, actions[..|actions| - 1])
      case None => None
      case Some(t) =>
        var a := actions[|actions| - 1];
        if Enabled(g, t, a) then Some(Next(g, t, a)) else None
  }

  // ---------- What is to be shown ----------

  /** Nothing is on its way that could make the operator act. */
  ghost predicate Quiescent(c: Config, s: System) {
    && s.worker.Idle?
    && s.events == multiset{}
    && CmoKey(c) !in s.queue.dirty && CmoKey(c) !in s.queue.processing && CmoKey(c) !in s.queue.waiting
  }

  /** The one copy of the gRPC secret carries exactly its current values. */
  ghost predicate Consistent(c: Config, o: Objects<string>) {
    && GrpcKey(c) in o
    && var copy := CopyNow(c, o[GrpcKey(c)]);
       Copies(c, o) == {copy.key} && o[copy.key].data == copy.obj.data
  }

  /** Copies are stored under the name their hash label gives, and the gRPC secret is not one of them. */
  ghost predicate WellNamed(c: Config, o: Objects<string>) {
    && GrpcKey(c) !in Copies(c, o)
    && forall k :: k in Copies(c, o) && HASH_LABEL in o[k].labels ==>
         k == Key(Secret, c.namespace, COPY_NAME + "-" + o[k].labels[HASH_LABEL])
  }
}
