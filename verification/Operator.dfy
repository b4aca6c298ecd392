/** Event handling, the worker and the concurrent task runner of pkg/operator/operator.go and pkg/tasks/tasks.go. */
module Operator {
  import opened Results
  import opened WorkQueue

  datatype Config = Config(namespace: string, namespaceUserWorkload: string,
                           configMapName: string, userWorkloadConfigMapName: string)

  /** The one key that is ever queued. */
  function CmoKey(c: Config): string {
    c.namespace + "/" + c.configMapName
  }

  /** The key of the gRPC secret the operator maintains, in its own namespace. */
  function GrpcEvent(c: Config): string {
    c.namespace + "/" + "grpc-tls"
  }

  /** The objects whose events trigger a reconcile; only the first and the last follow the configuration. */
  predicate Triggers(c: Config, key: string) {
    || key == CmoKey(c)
    || key == "kube-system/extension-apiserver-authentication"
    || key == "openshift-config-managed/kubelet-serving-ca"
    || key == "openshift-monitoring/prometheus-adapter-tls"
    || key == "openshift-config/etcd-metrics-serving-ca"
    || key == "openshift-monitoring/telemeter-trusted-ca-bundle"
    || key == "openshift-monitoring/alertmanager-trusted-ca-bundle"
    || key == "openshift-monitoring/grpc-tls"
    || key == c.namespaceUserWorkload + "/" + c.userWorkloadConfigMapName
  }

  lemma GrpcTriggersInItsNamespace(c: Config)
    requires c.namespace == "openshift-monitoring"
    ensures Triggers(c, GrpcEvent(c))
  {
  }

  function Handled(c: Config, q: QueueState, key: string): QueueState {
    if Triggers(c, key) then Added(q, CmoKey(c)) else q
  }

  function HandledAll(c: Config, q: QueueState, keys: seq<string>): QueueState {
    if keys == [] then q else Handled(c, HandledAll(c, q, keys[..|keys| - 1]), keys[|keys| - 1])
  }

  class Controller {
    const config: Config
    const queue: RateLimitingQueue
    var reconcileAttempts: nat
    var reconcileErrors: nat

    constructor (config: Config, queue: RateLimitingQueue)
      ensures this.config == config && this.queue == queue
      ensures reconcileAttempts == reconcileErrors == 0
    {
      this.config, this.queue := config, queue;
      reconcileAttempts, reconcileErrors := 0, 0;
    }

    method Enqueue(key: string)
      modifies queue
      ensures queue.State() == Added(old(queue.State()), key)
    {
      queue.Add(key);
    }

    method HandleEvent(key: string)
      modifies queue
      ensures queue.State() == Handled(config, old(queue.State()), key)
    {
      var cmoConfigMap := config.namespace + "/" + config.configMapName;
      var uwmConfigMap := config.namespaceUserWorkload + "/" + config.userWorkloadConfigMapName;
      if key != cmoConfigMap
        && key != "kube-system/extension-apiserver-authentication"
        && key != "openshift-config-managed/kubelet-serving-ca"
        && key != "openshift-monitoring/prometheus-adapter-tls"
        && key != "openshift-config/etcd-metrics-serving-ca"
        && key != "openshift-monitoring/telemeter-trusted-ca-bundle"
        && key != "openshift-monitoring/alertmanager-trusted-ca-bundle"
        && key != "openshift-monitoring/grpc-tls"
        && key != uwmConfigMap
      {
        return;
      }
      Enqueue(cmoConfigMap);
    }

    /**
      One turn of the worker: the key in front is synchronised, while events keep arriving, and is
      rate-limited if that failed. It is done with only after that.
     */
    method ProcessNextWorkItem(arrivals: seq<string>, syncFails: bool) returns (key: string)
      requires queue.keys != []
      modifies this, queue
      ensures key == old(queue.keys)[0]
      ensures var busy := HandledAll(config, Taken(old(queue.State())), arrivals);
              queue.State() == Finished(if syncFails then BackedOff(busy, key) else busy, key)
      ensures reconcileAttempts == old(reconcileAttempts) + 1
      ensures reconcileErrors == old(reconcileErrors) + if syncFails then 1 else 0
    {
      key := queue.Get();
      reconcileAttempts := reconcileAttempts + 1;
      ghost var taken := queue.State();
      for i := 0 to |arrivals|
        invariant queue.State() == HandledAll(config, taken, arrivals[..i])
        invariant reconcileAttempts == old(reconcileAttempts) + 1 && reconcileErrors == old(reconcileErrors)
      {
        assert arrivals[..i + 1][..i] == arrivals[..i];
        HandleEvent(arrivals[i]);
      }
      assert arrivals[..|arrivals|] == arrivals;
      if syncFails {
        reconcileErrors := reconcileErrors + 1;
        queue.AddRateLimited(key);
      }
      queue.Done(key);
    }
  }

  // ---------- Running all tasks ----------

  datatype TaskSpec = TaskSpec(name: string, error: Option<string>)

  /** Some order in which all tasks come to an end. */
  ghost predicate CompletionOrder(order: seq<nat>, n: nat) {
    && (forall i :: 0 <= i < |order| ==> order[i] < n)
    && (forall t :: 0 <= t < n ==> t in order)
  }

  ghost predicate FirstFailure(tasks: seq<TaskSpec>, order: seq<nat>, i: nat) {
    && CompletionOrder(order, |tasks|) && i < |order| && tasks[order[i]].error.Some?
    && forall j :: 0 <= j < i ==> tasks[order[j]].error.None?
  }

  /**
    All tasks run concurrently, none is cancelled, and the error reported is that of whichever task
    failed first: none exactly when every task succeeded.
   */
  method RunAll(tasks: seq<TaskSpec>, order: seq<nat>) returns (name: string, err: Option<string>)
    requires CompletionOrder(order, |tasks|)
    ensures err.None? <==> forall t :: 0 <= t < |tasks| ==> tasks[t].error.None?
    ensures err.None? ==> name == ""
    ensures err.Some? ==>
              exists i: nat :: FirstFailure(tasks, order, i) &&
                name == tasks[order[i]].name && err == tasks[order[i]].error
  {
    var first: Option<TaskSpec> := None;
    for i := 0 to |order|
      invariant first.None? ==> forall j :: 0 <= j < i ==> tasks[order[j]].error.None?
      invariant first.Some? ==> exists j: nat :: FirstFailure(tasks, order, j) && first.value == tasks[order[j]]
    {
      var done := tasks[order[i]];
      if done.error.Some? && first.None? {
        first := Some(done);
        assert FirstFailure(tasks, order, i);
      }
    }
    if first.Some? {
      ghost var j: nat :| FirstFailure(tasks, order, j) && first.value == tasks[order[j]];
      assert tasks[order[j]].error.Some?;
      return first.value.name, first.value.error;
    }
    forall t | 0 <= t < |tasks|
      ensures tasks[t].error.None?
    {
      assert t in order;
    }
    return "", None;
  }
}
