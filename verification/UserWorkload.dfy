/**
  PrometheusUserWorkloadTask of pkg/tasks/prometheus_user_workload.go: its create and destroy paths as
  sequences of cluster requests, and what is left when one follows the other.
 */
module UserWorkload {
  import opened Results
  import opened Metadata
  import opened Cluster
  import opened Fnv
  import opened Hashed
  import opened GrpcCopy

  datatype Item = Item(key: Key, obj: Object<string>)

  /** What the factory makes for user workload monitoring. */
  datatype Assets = Assets(
    servingCertsCABundle: Item, serviceAccount: Item, clusterRole: Item, clusterRoleBinding: Item,
    roleConfig: Item, roles: seq<Item>, roleBindings: seq<Item>, roleBindingConfig: Item,
    service: Item, sidecarService: Item, prometheus: Item, prometheusMonitor: Item, sidecarMonitor: Item,
    grpcTls: Key, copyName: Key)

  function KeysOf(items: seq<Item>): set<Key> {
    set i | i in items :: i.key
  }

  /** Everything that is made under a fixed name. */
  function OwnKeys(a: Assets): set<Key> {
    RbacKeys(a) + {a.service.key, a.sidecarService.key} +
    {a.prometheus.key, a.prometheusMonitor.key, a.sidecarMonitor.key}
  }

  function AccountKeys(a: Assets): set<Key> {
    {a.servingCertsCABundle.key, a.serviceAccount.key, a.clusterRole.key, a.clusterRoleBinding.key}
  }

  function RbacKeys(a: Assets): set<Key> {
    AccountKeys(a) + {a.roleConfig.key} + KeysOf(a.roles) + KeysOf(a.roleBindings) + {a.roleBindingConfig.key}
  }

  /** Only the gRPC secret and its copies are secrets, and no copy can have the secret's own name. */
  ghost predicate WellKinded(a: Assets) {
    && a.copyName.kind == Secret && a.copyName.name != ""
    && (forall k :: k in OwnKeys(a) ==> k.kind != Secret)
    && a.grpcTls.kind == Secret
    && (a.grpcTls.namespace == a.copyName.namespace ==> !(a.copyName.name + "-" <= a.grpcTls.name))
  }

  /** The gRPC secret is not labelled as one of its copies. */
  ghost predicate SecretApart(o: Objects<string>, a: Assets) {
    a.grpcTls in o && a.grpcTls.namespace == a.copyName.namespace ==> !Labelled(o[a.grpcTls], a.copyName.name)
  }

  /** The copy of the gRPC secret as it stands. */
  function CopyIn(o: Objects<string>, a: Assets): Addressed<string>
    requires a.grpcTls in o
  {
    CopyOf(o[a.grpcTls], a.copyName.namespace, a.copyName.name)
  }

  // ---------- The cluster after each request that succeeds ----------

  /** How the client treats an object that is there: left alone, overwritten, or overwritten unless its data is as wanted. */
  datatype Mode = Leave | Overwrite | Adapt

  datatype Request = Request(mode: Mode, item: Item)

  function Requested(o: Objects<string>, r: Request): Objects<string> {
    var i := r.item;
    if i.key in o && (r.mode.Leave? || (r.mode.Adapt? && o[i.key].data == i.obj.data)) then o
    else o[i.key := Put(o, i.key, i.obj)]
  }

  function RequestedAll(o: Objects<string>, rs: seq<Request>): Objects<string> {
    if rs == [] then o else Requested(RequestedAll(o, rs[..|rs| - 1]), rs[|rs| - 1])
  }

  function Requests(mode: Mode, items: seq<Item>): seq<Request> {
    seq(|items|, i requires 0 <= i < |items| => Request(mode, items[i]))
  }

  function RequestKeys(rs: seq<Request>): set<Key> {
    set r | r in rs :: r.item.key
  }

  function AccountRequests(a: Assets): seq<Request> {
    [ Request(Leave, a.servingCertsCABundle), Request(Leave, a.serviceAccount),
      Request(Overwrite, a.clusterRole), Request(Adapt, a.clusterRoleBinding) ]
  }

  function RbacRequests(a: Assets): seq<Request> {
    AccountRequests(a) + [Request(Overwrite, a.roleConfig)] + Requests(Overwrite, a.roles) +
    Requests(Adapt, a.roleBindings) + [Request(Adapt, a.roleBindingConfig)]
  }

  function ServiceRequests(a: Assets): seq<Request> {
    [Request(Adapt, a.service), Request(Adapt, a.sidecarService)]
  }

  function PrometheusRequests(a: Assets): seq<Request> {
    [ Request(Overwrite, a.prometheus), Request(Overwrite, a.prometheusMonitor), Request(Overwrite, a.sidecarMonitor) ]
  }

  /** The cluster when create starts to wait for the gRPC secret. */
  function BeforeCopy(o: Objects<string>, a: Assets): Objects<string> {
    RequestedAll(RequestedAll(o, RbacRequests(a)), ServiceRequests(a))
  }

  /** The cluster when destroy starts to wait for it. */
  function BeforeRemoval(p: Objects<string>, a: Assets): Objects<string> {
    p - {a.sidecarMonitor.key, a.prometheusMonitor.key}
  }

  /**
    A completed create from o to p; w is the cluster when the wait for the gRPC secret was over, during
    which others may have written that secret.
   */
  ghost predicate CreateDid(o: Objects<string>, w: Objects<string>, p: Objects<string>, a: Assets, made: Addressed<string>) {
    && SameOutside(BeforeCopy(o, a), w, {a.grpcTls})
    && a.grpcTls in w && made == CopyIn(w, a)
    && p == RequestedAll(Settled(w, made), PrometheusRequests(a))
  }

  /** A completed destroy from p to q; v is the cluster when its wait was over. */
  ghost predicate DestroyDid(p: Objects<string>, v: Objects<string>, q: Objects<string>, a: Assets, removed: Addressed<string>) {
    && SameOutside(BeforeRemoval(p, a), v, {a.grpcTls})
    && a.grpcTls in v && removed == CopyIn(v, a)
    && q == v - (OwnKeys(a) + {removed.key})
  }

  class PrometheusUserWorkloadTask {
    const api: Api<string>
    const assets: Assets

    constructor (api: Api<string>, assets: Assets)
      ensures this.api == api && this.assets == assets
    {
      this.api, this.assets := api, assets;
    }

    method CreateRoles(items: seq<Item>) returns (failed: bool)
      modifies api
      ensures SameOutside(old(api.objects), api.objects, KeysOf(items))
      ensures !failed ==> api.objects == RequestedAll(old(api.objects), Requests(Overwrite, items))
      ensures api.NeverFails() ==> !failed
    {
      for i := 0 to |items|
        invariant SameOutside(old(api.objects), api.objects, KeysOf(items))
        invariant api.objects == RequestedAll(old(api.objects), Requests(Overwrite, items)[..i])
      {
        assert items[i] in items && items[i].key in KeysOf(items);
        RequestedNext(old(api.objects), Requests(Overwrite, items), i);
        failed := api.CreateOrUpdate(items[i].key, items[i].obj);
        if failed {
          return;
        }
      }
      assert Requests(Overwrite, items)[..|items|] == Requests(Overwrite, items);
      failed := false;
    }

    method CreateRoleBindings(items: seq<Item>) returns (failed: bool)
      modifies api
      ensures SameOutside(old(api.objects), api.objects, KeysOf(items))
      ensures !failed ==> api.objects == RequestedAll(old(api.objects), Requests(Adapt, items))
      ensures api.NeverFails() ==> !failed
    {
      for i := 0 to |items|
        invariant SameOutside(old(api.objects), api.objects, KeysOf(items))
        invariant api.objects == RequestedAll(old(api.objects), Requests(Adapt, items)[..i])
      {
        assert items[i] in items && items[i].key in KeysOf(items);
        RequestedNext(old(api.objects), Requests(Adapt, items), i);
        failed := api.CreateOrUpdateUnlessEqual(items[i].key, items[i].obj);
        if failed {
          return;
        }
      }
      assert Requests(Adapt, items)[..|items|] == Requests(Adapt, items);
      failed := false;
    }

    method CreateAccount() returns (failed: bool)
      modifies api
      ensures SameOutside(old(api.objects), api.objects, AccountKeys(assets))
      ensures !failed ==> api.objects == RequestedAll(old(api.objects), AccountRequests(assets))
      ensures api.NeverFails() ==> !failed
    {
      failed := api.CreateIfNotExist(assets.servingCertsCABundle.key, assets.servingCertsCABundle.obj);
      if failed { return; }
      failed := api.CreateIfNotExist(assets.serviceAccount.key, assets.serviceAccount.obj);
      if failed { return; }
      failed := api.CreateOrUpdate(assets.clusterRole.key, assets.clusterRole.obj);
      if failed { return; }
      failed := api.Recreate(assets.clusterRoleBinding.key, assets.clusterRoleBinding.obj);
      FourRequests(old(api.objects), Request(Leave, assets.servingCertsCABundle), Request(Leave, assets.serviceAccount),
                   Request(Overwrite, assets.clusterRole), Request(Adapt, assets.clusterRoleBinding));
    }

    method CreateRbac() returns (failed: bool)
      modifies api
      ensures SameOutside(old(api.objects), api.objects, RbacKeys(assets))
      ensures !failed ==> api.objects == RequestedAll(old(api.objects), RbacRequests(assets))
      ensures api.NeverFails() ==> !failed
    {
      failed := CreateAccount();
      if failed { return; }
      failed := api.CreateOrUpdate(assets.roleConfig.key, assets.roleConfig.obj);
      if failed { return; }
      failed := CreateRoles(assets.roles);
      if failed { return; }
      failed := CreateRoleBindings(assets.roleBindings);
      if failed { return; }
      failed := api.CreateOrUpdateUnlessEqual(assets.roleBindingConfig.key, assets.roleBindingConfig.obj);
      RbacInARow(old(api.objects), assets);
    }

    method CreateServices() returns (failed: bool)
      modifies api
      ensures SameOutside(old(api.objects), api.objects, {assets.service.key, assets.sidecarService.key})
      ensures !failed ==> api.objects == RequestedAll(old(api.objects), ServiceRequests(assets))
      ensures api.NeverFails() ==> !failed
    {
      failed := api.CreateOrUpdateUnlessEqual(assets.service.key, assets.service.obj);
      if failed { return; }
      failed := api.CreateOrUpdateUnlessEqual(assets.sidecarService.key, assets.sidecarService.obj);
      TwoRequests(old(api.objects), Request(Adapt, assets.service), Request(Adapt, assets.sidecarService));
    }

    /** The wait for the Prometheus object to settle either ends well or fails the whole path. */
    method CreatePrometheus(settles: bool) returns (failed: bool)
      modifies api
      ensures SameOutside(old(api.objects), api.objects,
                          {assets.prometheus.key, assets.prometheusMonitor.key, assets.sidecarMonitor.key})
      ensures !failed ==> api.objects == RequestedAll(old(api.objects), PrometheusRequests(assets))
      ensures api.NeverFails() && settles ==> !failed
    {
      failed := api.CreateOrUpdate(assets.prometheus.key, assets.prometheus.obj);
      if failed { return; }
      if !settles {
        return true;
      }
      failed := api.CreateOrUpdate(assets.prometheusMonitor.key, assets.prometheusMonitor.obj);
      if failed { return; }
      failed := api.CreateOrUpdate(assets.sidecarMonitor.key, assets.sidecarMonitor.obj);
      ThreeRequests(old(api.objects), Request(Overwrite, assets.prometheus), Request(Overwrite, assets.prometheusMonitor),
                    Request(Overwrite, assets.sidecarMonitor));
    }

    method Create(changes: seq<Change>, settles: bool)
        returns (failed: bool, copy: Option<Addressed<string>>, ghost polls: nat)
      requires WellKinded(assets)
      modifies api
      ensures polls <= |changes|
      ensures !failed ==>
                copy.Some? &&
                CreateDid(old(api.objects), AfterChanges(BeforeCopy(old(api.objects), assets), assets.grpcTls, changes[..polls]),
                          api.objects, assets, copy.value)
      ensures api.NeverFails() && settles && failed ==>
                NeverReady(BeforeCopy(old(api.objects), assets), assets.grpcTls, changes)
    {
      copy, polls := None, 0;
      failed := CreateRbac();
      if failed { return; }
      failed := CreateServices();
      if failed { return; }
      failed, copy, polls := CopyGrpcSecret(api, assets.grpcTls, assets.copyName, changes);
      AfterChangesElsewhere(BeforeCopy(old(api.objects), assets), assets.grpcTls, changes[..polls]);
      if failed { return; }
      failed := CreatePrometheus(settles);
    }

    // ---------- Destroying ----------

    /** One deletion in a row of them; the ghost arguments say where the row began and what is gone already. */
    method DeleteNext(key: Key, ghost before: Objects<string>, ghost gone: set<Key>) returns (failed: bool)
      requires api.objects == before - gone
      modifies api
      ensures !failed ==> api.objects == before - (gone + {key})
      ensures api.NeverFails() ==> !failed
    {
      failed := api.DeleteIfPresent(key);
    }

    method DeleteAll(items: seq<Item>, ghost before: Objects<string>, ghost gone: set<Key>) returns (failed: bool)
      requires api.objects == before - gone
      modifies api
      ensures !failed ==> api.objects == before - (gone + KeysOf(items))
      ensures api.NeverFails() ==> !failed
    {
      assert gone + KeysOf(items[..0]) == gone;
      for i := 0 to |items|
        invariant api.objects == before - (gone + KeysOf(items[..i]))
      {
        failed := DeleteNext(items[i].key, before, gone + KeysOf(items[..i]));
        if failed {
          return;
        }
        KeysOfNext(items, i);
        assert gone + KeysOf(items[..i]) + {items[i].key} == gone + KeysOf(items[..i + 1]);
      }
      assert items[..|items|] == items;
      failed := false;
    }

    method DestroyMonitors() returns (failed: bool)
      modifies api
      ensures !failed ==> api.objects == old(api.objects) - {assets.sidecarMonitor.key, assets.prometheusMonitor.key}
      ensures api.NeverFails() ==> !failed
    {
      failed := api.DeleteIfPresent(assets.sidecarMonitor.key);
      if failed { return; }
      failed := api.DeleteIfPresent(assets.prometheusMonitor.key);
    }

    /** Deletes the Prometheus object, whose pods may or may not go away in time, and the copy of the current gRPC data. */
    method DestroyPrometheus(changes: seq<Change>, podsGone: bool)
        returns (failed: bool, copy: Option<Addressed<string>>, ghost polls: nat)
      modifies api
      ensures polls <= |changes|
      ensures !failed ==>
                var waited := AfterChanges(old(api.objects), assets.grpcTls, changes[..polls]);
                && assets.grpcTls in waited && copy == Some(CopyIn(waited, assets))
                && api.objects == waited - {assets.prometheus.key, copy.value.key}
      ensures api.NeverFails() && podsGone && failed ==> NeverReady(old(api.objects), assets.grpcTls, changes)
    {
      copy := None;
      var grpcTLS;
      grpcTLS, polls := WaitForSecret(api, assets.grpcTls, changes);
      if grpcTLS.None? {
        return true, None, polls;
      }
      var s := HashGrpcSecret(grpcTLS.value, assets.copyName);
      copy := Some(s);
      failed := api.DeleteIfPresent(assets.prometheus.key);
      if failed { return; }
      if !podsGone {
        return true, copy, polls;
      }
      failed := api.DeleteIfPresent(s.key);
    }

    method DestroyBindings(ghost before: Objects<string>, ghost gone: set<Key>) returns (failed: bool)
      requires api.objects == before - gone
      modifies api
      ensures !failed ==> api.objects == before - (gone + {assets.roleBindingConfig.key} + KeysOf(assets.roleBindings) +
                                                   KeysOf(assets.roles) + {assets.roleConfig.key})
      ensures api.NeverFails() ==> !failed
    {
      failed := DeleteNext(assets.roleBindingConfig.key, before, gone);
      if failed { return; }
      ghost var g := gone + {assets.roleBindingConfig.key};
      failed := DeleteAll(assets.roleBindings, before, g);
      if failed { return; }
      g := g + KeysOf(assets.roleBindings);
      failed := DeleteAll(assets.roles, before, g);
      if failed { return; }
      g := g + KeysOf(assets.roles);
      failed := DeleteNext(assets.roleConfig.key, before, g);
    }

    method DestroyRbac(ghost before: Objects<string>, ghost gone: set<Key>) returns (failed: bool)
      requires api.objects == before - gone
      modifies api
      ensures !failed ==> api.objects == before - (gone + RbacKeys(assets))
      ensures api.NeverFails() ==> !failed
    {
      failed := DestroyBindings(before, gone);
      if failed { return; }
      ghost var g := gone + {assets.roleBindingConfig.key} + KeysOf(assets.roleBindings) +
                     KeysOf(assets.roles) + {assets.roleConfig.key};
      failed := DeleteNext(assets.clusterRoleBinding.key, before, g);
      if failed { return; }
      g := g + {assets.clusterRoleBinding.key};
      failed := DeleteNext(assets.clusterRole.key, before, g);
      if failed { return; }
      g := g + {assets.clusterRole.key};
      failed := DeleteNext(assets.serviceAccount.key, before, g);
      if failed { return; }
      g := g + {assets.serviceAccount.key};
      failed := DeleteNext(assets.servingCertsCABundle.key, before, g);
      assert g + {assets.servingCertsCABundle.key} == gone + RbacKeys(assets);
    }

    method Destroy(changes: seq<Change>, podsGone: bool)
        returns (failed: bool, copy: Option<Addressed<string>>, ghost polls: nat)
      requires WellKinded(assets)
      modifies api
      ensures polls <= |changes|
      ensures !failed ==>
                copy.Some? &&
                DestroyDid(old(api.objects), AfterChanges(BeforeRemoval(old(api.objects), assets), assets.grpcTls, changes[..polls]),
                           api.objects, assets, copy.value)
      ensures api.NeverFails() && podsGone && failed ==>
                NeverReady(BeforeRemoval(old(api.objects), assets), assets.grpcTls, changes)
    {
      copy, polls := None, 0;
      failed := DestroyMonitors();
      if failed { return; }
      failed, copy, polls := DestroyPrometheus(changes, podsGone);
      if failed { return; }
      ghost var waited := AfterChanges(BeforeRemoval(old(api.objects), assets), assets.grpcTls, changes[..polls]);
      ghost var g := {assets.prometheus.key, copy.value.key};
      failed := DeleteNext(assets.service.key, waited, g);
      if failed { return; }
      g := g + {assets.service.key};
      failed := DeleteNext(assets.sidecarService.key, waited, g);
      if failed { return; }
      g := g + {assets.sidecarService.key};
      failed := DestroyRbac(waited, g);
      AfterChangesElsewhere(BeforeRemoval(old(api.objects), assets), assets.grpcTls, changes[..polls]);
      DestroyCoversOwnKeys(old(api.objects), waited, assets, copy.value.key);
    }
  }

  /** What destroy deletes, step by step, is everything create makes. */
  lemma DestroyCoversOwnKeys(p: Objects<string>, v: Objects<string>, a: Assets, copy: Key)
    requires WellKinded(a) && SameOutside(BeforeRemoval(p, a), v, {a.grpcTls})
    ensures v - ({a.prometheus.key, copy} + {a.service.key} + {a.sidecarService.key} + RbacKeys(a)) ==
            v - (OwnKeys(a) + {copy})
  {
    var g := {a.prometheus.key, copy} + {a.service.key} + {a.sidecarService.key} + RbacKeys(a);
    var monitors := {a.sidecarMonitor.key, a.prometheusMonitor.key};
    assert g + monitors == OwnKeys(a) + {copy};
    assert monitors <= OwnKeys(a);
    assert forall k :: k in monitors ==> k !in v;
  }

  lemma KeysOfNext(items: seq<Item>, i: nat)
    requires i < |items|
    ensures KeysOf(items[..i + 1]) == KeysOf(items[..i]) + {items[i].key}
  {
  }

  // ---------- What the two paths do ----------

  /** Every key and the current copy are there, older copies are gone, and nothing else differs. */
  ghost predicate CreatedKeys(o: Objects<string>, p: Objects<string>, keys: set<Key>, copy: Addressed<string>) {
    && WellLabelled(copy) && copy.key.kind == Secret
    && copy.key in p && p[copy.key].data == copy.obj.data
    && keys <= p.Keys
    && SameOutside(o, p, keys + {copy.key} + Stale(o, copy))
    && (forall k :: k in Stale(o, copy) && k != copy.key ==> k !in p)
  }

  /** Nothing but the given keys has changed, and all of these are there. */
  ghost predicate Makes(o: Objects<string>, p: Objects<string>, keys: set<Key>) {
    SameOutside(o, p, keys) && keys <= p.Keys && o.Keys <= p.Keys
  }

  lemma RequestMakes(o: Objects<string>, p: Objects<string>, keys: set<Key>, r: Request)
    requires Makes(o, p, keys)
    ensures Makes(o, Requested(p, r), keys + {r.item.key})
  {
  }

  lemma {:induction false} RequestsMake(o: Objects<string>, rs: seq<Request>)
    ensures Makes(o, RequestedAll(o, rs), RequestKeys(rs))
  {
    if rs != [] {
      var n := |rs| - 1;
      RequestsMake(o, rs[..n]);
      RequestMakes(o, RequestedAll(o, rs[..n]), RequestKeys(rs[..n]), rs[n]);
      RequestKeysNext(rs, n);
      assert rs[..n + 1] == rs;
    }
  }

  lemma RequestKeysNext(rs: seq<Request>, n: nat)
    requires n < |rs|
    ensures RequestKeys(rs[..n + 1]) == RequestKeys(rs[..n]) + {rs[n].item.key}
  {
  }

  ghost predicate NoSecrets(keys: set<Key>) {
    forall k :: k in keys ==> k.kind != Secret
  }

  lemma SettledCreates(o: Objects<string>, mid: Objects<string>, keys: set<Key>, copy: Addressed<string>)
    requires Makes(o, mid, keys) && NoSecrets(keys) && WellLabelled(copy) && copy.key.kind == Secret
    ensures CreatedKeys(o, Settled(mid, copy), keys, copy)
  {
  }

  lemma RequestCreates(o: Objects<string>, p: Objects<string>, keys: set<Key>, copy: Addressed<string>, r: Request)
    requires CreatedKeys(o, p, keys, copy) && r.item.key.kind != Secret
    ensures CreatedKeys(o, Requested(p, r), keys + {r.item.key}, copy)
  {
  }

  lemma {:induction false} RequestsCreate(o: Objects<string>, p: Objects<string>, keys: set<Key>, copy: Addressed<string>, rs: seq<Request>)
    requires CreatedKeys(o, p, keys, copy) && NoSecrets(RequestKeys(rs))
    ensures CreatedKeys(o, RequestedAll(p, rs), keys + RequestKeys(rs), copy)
  {
    if rs == [] {
      assert keys + RequestKeys(rs) == keys;
    } else {
      var n := |rs| - 1;
      assert rs[..n + 1] == rs;
      RequestKeysNext(rs, n);
      RequestsCreate(o, p, keys, copy, rs[..n]);
      RequestCreates(o, RequestedAll(p, rs[..n]), keys + RequestKeys(rs[..n]), copy, rs[n]);
      assert keys + RequestKeys(rs[..n]) + {rs[n].item.key} == keys + RequestKeys(rs);
    }
  }

  /** What is requested before the wait for the gRPC secret. */
  function EarlyRequests(a: Assets): seq<Request> {
    RbacRequests(a) + ServiceRequests(a)
  }

  lemma RequestsOfKeys(mode: Mode, items: seq<Item>)
    ensures RequestKeys(Requests(mode, items)) == KeysOf(items)
  {
    assert forall i :: 0 <= i < |items| ==> Requests(mode, items)[i].item == items[i];
    forall k | k in KeysOf(items)
      ensures k in RequestKeys(Requests(mode, items))
    {
      var i :| 0 <= i < |items| && items[i].key == k;
      assert Requests(mode, items)[i] in Requests(mode, items);
    }
  }

  lemma RequestKeysConcat(x: seq<Request>, y: seq<Request>)
    ensures RequestKeys(x + y) == RequestKeys(x) + RequestKeys(y)
  {
  }

  lemma RbacKeysAre(a: Assets)
    ensures RequestKeys(RbacRequests(a)) == RbacKeys(a)
  {
    var x1 := AccountRequests(a);
    var x2 := x1 + [Request(Overwrite, a.roleConfig)];
    var x3 := x2 + Requests(Overwrite, a.roles);
    var x4 := x3 + Requests(Adapt, a.roleBindings);
    RequestKeysConcat(x1, [Request(Overwrite, a.roleConfig)]);
    RequestKeysConcat(x2, Requests(Overwrite, a.roles));
    RequestKeysConcat(x3, Requests(Adapt, a.roleBindings));
    RequestKeysConcat(x4, [Request(Adapt, a.roleBindingConfig)]);
    RequestsOfKeys(Overwrite, a.roles);
    RequestsOfKeys(Adapt, a.roleBindings);
  }

  lemma OwnKeysAre(a: Assets)
    ensures RequestKeys(EarlyRequests(a)) + RequestKeys(PrometheusRequests(a)) == OwnKeys(a)
    ensures {a.sidecarMonitor.key, a.prometheusMonitor.key} <= OwnKeys(a)
    ensures WellKinded(a) ==> NoSecrets(OwnKeys(a)) && a.grpcTls !in OwnKeys(a)
  {
    RbacKeysAre(a);
    RequestKeysConcat(RbacRequests(a), ServiceRequests(a));
  }

  lemma {:induction false} RequestedConcat(o: Objects<string>, x: seq<Request>, y: seq<Request>)
    ensures RequestedAll(o, x + y) == RequestedAll(RequestedAll(o, x), y)
  {
    if y == [] {
      assert x + y == x;
    } else {
      var n := |y| - 1;
      RequestedConcat(o, x, y[..n]);
      assert (x + y)[..|x| + n] == x + y[..n];
    }
  }

  lemma RequestedNext(o: Objects<string>, rs: seq<Request>, i: nat)
    requires i < |rs|
    ensures RequestedAll(o, rs[..i + 1]) == Requested(RequestedAll(o, rs[..i]), rs[i])
  {
    assert rs[..i + 1][..i] == rs[..i];
  }

  lemma OneRequest(o: Objects<string>, r: Request)
    ensures RequestedAll(o, [r]) == Requested(o, r)
  {
    assert [r][..0] == [];
  }

  lemma TwoRequests(o: Objects<string>, r1: Request, r2: Request)
    ensures RequestedAll(o, [r1, r2]) == Requested(Requested(o, r1), r2)
  {
    OneRequest(o, r1);
    assert [r1, r2][..1] == [r1];
  }

  lemma ThreeRequests(o: Objects<string>, r1: Request, r2: Request, r3: Request)
    ensures RequestedAll(o, [r1, r2, r3]) == Requested(Requested(Requested(o, r1), r2), r3)
  {
    TwoRequests(o, r1, r2);
    assert [r1, r2, r3][..2] == [r1, r2];
  }

  lemma FourRequests(o: Objects<string>, r1: Request, r2: Request, r3: Request, r4: Request)
    ensures RequestedAll(o, [r1, r2, r3, r4]) == Requested(Requested(Requested(Requested(o, r1), r2), r3), r4)
  {
    ThreeRequests(o, r1, r2, r3);
    assert [r1, r2, r3, r4][..3] == [r1, r2, r3];
  }

  lemma RbacInARow(o: Objects<string>, a: Assets)
    ensures var o1 := Requested(RequestedAll(o, AccountRequests(a)), Request(Overwrite, a.roleConfig));
            var o2 := RequestedAll(RequestedAll(o1, Requests(Overwrite, a.roles)), Requests(Adapt, a.roleBindings));
            RequestedAll(o, RbacRequests(a)) == Requested(o2, Request(Adapt, a.roleBindingConfig))
  {
    InARow(o, AccountRequests(a), Request(Overwrite, a.roleConfig), Requests(Overwrite, a.roles),
           Requests(Adapt, a.roleBindings), Request(Adapt, a.roleBindingConfig));
  }

  lemma InARow(o: Objects<string>, x: seq<Request>, r: Request, y: seq<Request>, z: seq<Request>, t: Request)
    ensures RequestedAll(o, x + [r] + y + z + [t]) ==
            Requested(RequestedAll(RequestedAll(Requested(RequestedAll(o, x), r), y), z), t)
  {
    RequestedConcat(o, x + [r] + y + z, [t]);
    RequestedConcat(o, x + [r] + y, z);
    RequestedConcat(o, x + [r], y);
    RequestedConcat(o, x, [r]);
    OneRequest(RequestedAll(o, x), r);
    OneRequest(RequestedAll(RequestedAll(Requested(RequestedAll(o, x), r), y), z), t);
  }

  /** Others writing one key afterwards is as good as their having written it at the start. */
  lemma ChangedMakes(o: Objects<string>, b: Objects<string>, w: Objects<string>, keys: set<Key>, g: Key)
    requires Makes(o, b, keys) && SameOutside(b, w, {g}) && g in w && g !in keys
    ensures Makes(o[g := w[g]], w, keys)
  {
  }

  /**
    The whole create path, from its requests to what it amounts to. Where others wrote the gRPC secret
    during the wait, the comparison is with the start as they changed it.
   */
  lemma CreateMeans(o: Objects<string>, w: Objects<string>, p: Objects<string>, a: Assets, made: Addressed<string>)
    requires WellKinded(a) && CreateDid(o, w, p, a, made)
    ensures CreatedKeys(o[a.grpcTls := w[a.grpcTls]], p, OwnKeys(a), made)
  {
    var start := o[a.grpcTls := w[a.grpcTls]];
    var early := RequestKeys(EarlyRequests(a));
    OwnKeysAre(a);
    RequestedConcat(o, RbacRequests(a), ServiceRequests(a));
    RequestsMake(o, EarlyRequests(a));
    ChangedMakes(o, BeforeCopy(o, a), w, early, a.grpcTls);
    CopyWellLabelled(w[a.grpcTls], a.copyName.namespace, a.copyName.name);
    SettledCreates(start, w, early, made);
    RequestsCreate(start, Settled(w, made), early, made, PrometheusRequests(a));
  }

  // ---------- What create stores ----------

  /** Overwritten: the wanted data, under the wanted metadata merged with what was there. */
  ghost predicate Overwritten(o: Objects<string>, p: Objects<string>, i: Item) {
    && i.key in p && p[i.key].data == i.obj.data
    && (i.key in o ==>
          p[i.key].labels == Merged(i.obj.labels, o[i.key].labels) &&
          p[i.key].annotations == Merged(i.obj.annotations, o[i.key].annotations))
    && (i.key !in o ==> p[i.key] == i.obj)
  }

  /** Adapted: the wanted data; an object that had it already is untouched, any other is overwritten. */
  ghost predicate Adapted(o: Objects<string>, p: Objects<string>, i: Item) {
    && i.key in p && p[i.key].data == i.obj.data
    && (if i.key in o && o[i.key].data == i.obj.data then p[i.key] == o[i.key] else Overwritten(o, p, i))
  }

  /** Left alone if it was there, created as wanted if not. */
  ghost predicate LeftOrMade(o: Objects<string>, p: Objects<string>, i: Item) {
    i.key in p && p[i.key] == if i.key in o then o[i.key] else i.obj
  }

  ghost predicate Fulfilled(o: Objects<string>, p: Objects<string>, r: Request) {
    match r.mode
    case Leave => LeftOrMade(o, p, r.item)
    case Overwrite => Overwritten(o, p, r.item)
    case Adapt => Adapted(o, p, r.item)
  }

  ghost predicate DistinctKeys(rs: seq<Request>) {
    forall i, j :: 0 <= i < j < |rs| ==> rs[i].item.key != rs[j].item.key
  }

  ghost predicate SameAt(o: Objects<string>, p: Objects<string>, k: Key) {
    (k in p <==> k in o) && (k in o ==> p[k] == o[k])
  }

  lemma FulfilledBetween(o: Objects<string>, s: Objects<string>, t: Objects<string>, p: Objects<string>, r: Request)
    requires Fulfilled(s, t, r) && SameAt(o, s, r.item.key) && SameAt(t, p, r.item.key)
    ensures Fulfilled(o, p, r)
  {
  }

  lemma RequestFulfilled(o: Objects<string>, r: Request)
    ensures Fulfilled(o, Requested(o, r), r)
  {
  }

  lemma DistinctLast(rs: seq<Request>)
    requires rs != [] && DistinctKeys(rs)
    ensures var n := |rs| - 1;
            DistinctKeys(rs[..n]) && rs[n].item.key !in RequestKeys(rs[..n])
  {
  }

  lemma {:induction false} RequestsFulfilled(o: Objects<string>, rs: seq<Request>)
    requires DistinctKeys(rs)
    ensures forall r :: r in rs ==> Fulfilled(o, RequestedAll(o, rs), r)
  {
    if rs != [] {
      var n := |rs| - 1;
      var s := RequestedAll(o, rs[..n]);
      DistinctLast(rs);
      RequestsFulfilled(o, rs[..n]);
      RequestsMake(o, rs[..n]);
      RequestFulfilled(s, rs[n]);
      FulfilledBetween(o, s, Requested(s, rs[n]), Requested(s, rs[n]), rs[n]);
      forall r | r in rs[..n]
        ensures Fulfilled(o, RequestedAll(o, rs), r)
      {
        assert r.item.key in RequestKeys(rs[..n]);
        FulfilledBetween(o, o, s, Requested(s, rs[n]), r);
      }
      assert rs == rs[..n] + [rs[n]];
    }
  }

  /** Storing a copy and deleting its predecessors touches secrets only. */
  lemma SettlingLeavesOthers(w: Objects<string>, copy: Addressed<string>, k: Key)
    requires copy.key.kind == Secret && k.kind != Secret
    ensures SameAt(w, Settled(w, copy), k)
  {
  }

  lemma DistinctParts(x: seq<Request>, y: seq<Request>)
    requires DistinctKeys(x + y)
    ensures DistinctKeys(x) && DistinctKeys(y) && RequestKeys(x) !! RequestKeys(y)
  {
    var z := x + y;
    assert forall i :: 0 <= i < |x| ==> z[i] == x[i];
    assert forall i :: 0 <= i < |y| ==> z[|x| + i] == y[i];
  }

  lemma CreateFulfils(o: Objects<string>, w: Objects<string>, p: Objects<string>, a: Assets, made: Addressed<string>)
    requires WellKinded(a) && CreateDid(o, w, p, a, made)
    requires DistinctKeys(EarlyRequests(a) + PrometheusRequests(a))
    ensures AllFulfilled(o, p, EarlyRequests(a)) && AllFulfilled(o, p, PrometheusRequests(a))
  {
    var early, late := EarlyRequests(a), PrometheusRequests(a);
    var b, s := BeforeCopy(o, a), Settled(w, made);
    OwnKeysAre(a);
    DistinctParts(early, late);
    RequestedConcat(o, RbacRequests(a), ServiceRequests(a));
    RequestsFulfilled(o, early);
    RequestsFulfilled(s, late);
    RequestsMake(o, early);
    RequestsMake(s, late);
    CopyWellLabelled(w[a.grpcTls], a.copyName.namespace, a.copyName.name);
    forall r | r in early
      ensures Fulfilled(o, p, r)
    {
      assert r.item.key in RequestKeys(early);
      SettlingLeavesOthers(w, made, r.item.key);
      FulfilledBetween(o, o, b, p, r);
    }
    forall r | r in late
      ensures Fulfilled(o, p, r)
    {
      assert r.item.key in RequestKeys(late);
      SettlingLeavesOthers(w, made, r.item.key);
      FulfilledBetween(o, s, p, p, r);
    }
  }

  /**
    What a completed create stores under its own names, as far as these differ from each other: cluster
    role, roles, Prometheus object and monitors are brought up to date, bindings and services where
    their data differs, and the serving certificates bundle and the service account are only created.
   */
  lemma CreateStores(o: Objects<string>, w: Objects<string>, p: Objects<string>, a: Assets, made: Addressed<string>)
    requires WellKinded(a) && CreateDid(o, w, p, a, made)
    requires DistinctKeys(EarlyRequests(a) + PrometheusRequests(a))
    ensures LeftOrMade(o, p, a.servingCertsCABundle) && LeftOrMade(o, p, a.serviceAccount)
    ensures Overwritten(o, p, a.clusterRole) && Overwritten(o, p, a.roleConfig)
    ensures forall i :: i in a.roles ==> Overwritten(o, p, i)
    ensures Adapted(o, p, a.clusterRoleBinding) && Adapted(o, p, a.roleBindingConfig)
    ensures forall i :: i in a.roleBindings ==> Adapted(o, p, i)
    ensures Adapted(o, p, a.service) && Adapted(o, p, a.sidecarService)
    ensures Overwritten(o, p, a.prometheus)
    ensures Overwritten(o, p, a.prometheusMonitor) && Overwritten(o, p, a.sidecarMonitor)
  {
    CreateFulfils(o, w, p, a, made);
    EarlyFulfilled(o, p, a);
    AccountFulfilled(o, p, a);
    ListFulfilled(o, p, Overwrite, a.roles);
    ListFulfilled(o, p, Adapt, a.roleBindings);
    RestFulfilled(o, p, a);
  }

  ghost predicate AllFulfilled(o: Objects<string>, p: Objects<string>, rs: seq<Request>) {
    forall r :: r in rs ==> Fulfilled(o, p, r)
  }

  lemma AccountFulfilled(o: Objects<string>, p: Objects<string>, a: Assets)
    requires AllFulfilled(o, p, AccountRequests(a))
    ensures LeftOrMade(o, p, a.servingCertsCABundle) && LeftOrMade(o, p, a.serviceAccount)
    ensures Overwritten(o, p, a.clusterRole) && Adapted(o, p, a.clusterRoleBinding)
  {
    var rs := AccountRequests(a);
    assert rs[0] in rs && rs[1] in rs && rs[2] in rs && rs[3] in rs;
  }

  lemma RestFulfilled(o: Objects<string>, p: Objects<string>, a: Assets)
    requires AllFulfilled(o, p, [Request(Overwrite, a.roleConfig)]) && AllFulfilled(o, p, [Request(Adapt, a.roleBindingConfig)])
    requires AllFulfilled(o, p, ServiceRequests(a)) && AllFulfilled(o, p, PrometheusRequests(a))
    ensures Overwritten(o, p, a.roleConfig) && Adapted(o, p, a.roleBindingConfig)
    ensures Adapted(o, p, a.service) && Adapted(o, p, a.sidecarService)
    ensures Overwritten(o, p, a.prometheus)
    ensures Overwritten(o, p, a.prometheusMonitor) && Overwritten(o, p, a.sidecarMonitor)
  {
    var x, y := [Request(Overwrite, a.roleConfig)], [Request(Adapt, a.roleBindingConfig)];
    var ss, ps := ServiceRequests(a), PrometheusRequests(a);
    assert x[0] in x && y[0] in y && ss[0] in ss && ss[1] in ss && ps[0] in ps && ps[1] in ps && ps[2] in ps;
  }

  lemma ListFulfilled(o: Objects<string>, p: Objects<string>, mode: Mode, items: seq<Item>)
    requires AllFulfilled(o, p, Requests(mode, items))
    ensures forall i :: i in items ==> Fulfilled(o, p, Request(mode, i))
  {
    HasEach(mode, items);
  }

  lemma EarlyFulfilled(o: Objects<string>, p: Objects<string>, a: Assets)
    requires AllFulfilled(o, p, EarlyRequests(a))
    ensures AllFulfilled(o, p, AccountRequests(a)) && AllFulfilled(o, p, ServiceRequests(a))
    ensures AllFulfilled(o, p, [Request(Overwrite, a.roleConfig)]) && AllFulfilled(o, p, [Request(Adapt, a.roleBindingConfig)])
    ensures AllFulfilled(o, p, Requests(Overwrite, a.roles)) && AllFulfilled(o, p, Requests(Adapt, a.roleBindings))
  {
    var x := AccountRequests(a);
    var x2 := x + [Request(Overwrite, a.roleConfig)];
    var x3 := x2 + Requests(Overwrite, a.roles);
    var x4 := x3 + Requests(Adapt, a.roleBindings);
    PartsFulfilled(o, p, RbacRequests(a), ServiceRequests(a));
    PartsFulfilled(o, p, x4, [Request(Adapt, a.roleBindingConfig)]);
    PartsFulfilled(o, p, x3, Requests(Adapt, a.roleBindings));
    PartsFulfilled(o, p, x2, Requests(Overwrite, a.roles));
    PartsFulfilled(o, p, x, [Request(Overwrite, a.roleConfig)]);
  }

  lemma PartsFulfilled(o: Objects<string>, p: Objects<string>, x: seq<Request>, y: seq<Request>)
    requires AllFulfilled(o, p, x + y)
    ensures AllFulfilled(o, p, x) && AllFulfilled(o, p, y)
  {
    assert forall r :: r in x || r in y ==> r in x + y;
  }

  lemma HasEach(mode: Mode, items: seq<Item>)
    ensures forall i :: i in items ==> Request(mode, i) in Requests(mode, items)
  {
    forall i | i in items
      ensures Request(mode, i) in Requests(mode, items)
    {
      var n :| 0 <= n < |items| && items[n] == i;
      assert Requests(mode, items)[n] == Request(mode, i);
    }
  }

  /** The copy is never stored over the gRPC secret itself. */
  lemma CopyIsNotTheSecret(a: Assets, grpc: Object<string>)
    requires WellKinded(a)
    ensures CopyOf(grpc, a.copyName.namespace, a.copyName.name).key != a.grpcTls
  {
    var hash := HashOf(Values(CopiedPairs(grpc)));
    NameHasPrefix(a.copyName.name + "-", hash);
  }

  lemma NameHasPrefix(prefix: string, rest: string)
    ensures prefix <= prefix + rest
  {
  }

  /** A completed create leaves the gRPC secret as the wait found it. */
  lemma CreateKeepsSecret(o: Objects<string>, w: Objects<string>, p: Objects<string>, a: Assets, made: Addressed<string>)
    requires WellKinded(a) && CreateDid(o, w, p, a, made) && SecretApart(w, a)
    ensures a.grpcTls in p && p[a.grpcTls] == w[a.grpcTls]
  {
    CreateMeans(o, w, p, a, made);
    CopyIsNotTheSecret(a, w[a.grpcTls]);
    OwnKeysAre(a);
    CreatedKeeps(o[a.grpcTls := w[a.grpcTls]], p, OwnKeys(a), made, a.grpcTls);
  }

  lemma CreatedKeeps(o: Objects<string>, p: Objects<string>, keys: set<Key>, copy: Addressed<string>, g: Key)
    requires CreatedKeys(o, p, keys, copy) && g !in keys && g != copy.key && g in o && g !in Stale(o, copy)
    ensures g in p && p[g] == o[g]
  {
  }

  /** Whatever changed in between, the copy made by create is left behind exactly when the hashed values changed. */
  lemma CopyLeftBehind(o: Objects<string>, w: Objects<string>, p: Objects<string>, v: Objects<string>, q: Objects<string>,
                       a: Assets, made: Addressed<string>, removed: Addressed<string>)
    requires WellKinded(a) && CreateDid(o, w, p, a, made) && DestroyDid(p, v, q, a, removed)
    ensures made.key in q <==>
            HashOf(Values(CopiedPairs(w[a.grpcTls]))) != HashOf(Values(CopiedPairs(v[a.grpcTls])))
  {
    CreateMeans(o, w, p, a, made);
    CopyIsNotTheSecret(a, w[a.grpcTls]);
    NamesTellHashesApart(a.copyName.name, made.hash, removed.hash);
    OwnKeysAre(a);
    assert made.key in v;
  }

  /**
    Create, then destroy with unchanged gRPC data, removes the very copy that create made and leaves the
    initial cluster minus the keys made by create and its secret copies. Every other object is
    untouched, the gRPC secret included, unless others wrote that.
   */
  lemma CreateThenDestroy(o: Objects<string>, w: Objects<string>, p: Objects<string>, v: Objects<string>, q: Objects<string>,
                          a: Assets, made: Addressed<string>, removed: Addressed<string>)
    requires WellKinded(a) && CreateDid(o, w, p, a, made) && DestroyDid(p, v, q, a, removed)
    requires SecretApart(o, a) && SecretApart(w, a)
    requires v[a.grpcTls].data == w[a.grpcTls].data
    ensures made == removed
    ensures a.grpcTls in p && p[a.grpcTls] == w[a.grpcTls]
    ensures q == o[a.grpcTls := v[a.grpcTls]] - (OwnKeys(a) + {made.key} + Stale(o, made))
    ensures a.grpcTls in o && v[a.grpcTls] == o[a.grpcTls] ==>
              q == o - (OwnKeys(a) + {made.key} + Stale(o, made))
  {
    SameDataSameCopy(w[a.grpcTls], v[a.grpcTls], a.copyName.namespace, a.copyName.name);
    CreateMeans(o, w, p, a, made);
    CreateKeepsSecret(o, w, p, a, made);
    CopyIsNotTheSecret(a, w[a.grpcTls]);
    OwnKeysAre(a);
    CreatedThenRemoved(o, w[a.grpcTls], p, v, q, OwnKeys(a), {a.sidecarMonitor.key, a.prometheusMonitor.key}, a.grpcTls, made);
    PutBack(o, a.grpcTls, v[a.grpcTls]);
  }

  lemma PutBack(o: Objects<string>, key: Key, obj: Object<string>)
    ensures key in o && obj == o[key] ==> o[key := obj] == o
  {
  }

  lemma CreatedThenRemoved(o: Objects<string>, x: Object<string>, p: Objects<string>, v: Objects<string>, q: Objects<string>,
                           keys: set<Key>, monitors: set<Key>, g: Key, made: Addressed<string>)
    requires CreatedKeys(o[g := x], p, keys, made)
    requires monitors <= keys && SameOutside(p - monitors, v, {g}) && q == v - (keys + {made.key})
    requires g in v && g !in keys && g != made.key && g !in Stale(o, made) && g !in Stale(o[g := x], made)
    ensures q == o[g := v[g]] - (keys + {made.key} + Stale(o, made))
  {
    assert Stale(o[g := x], made) == Stale(o, made);
    RemovedFrom(o, p, v, q, keys + {made.key}, Stale(o, made), monitors, g);
  }

  lemma RemovedFrom(o: Objects<string>, p: Objects<string>, v: Objects<string>, q: Objects<string>,
                    removed: set<Key>, replaced: set<Key>, monitors: set<Key>, g: Key)
    requires SameOutside(o, p, removed + replaced + {g}) && forall k :: k in replaced - removed ==> k !in p
    requires monitors <= removed && SameOutside(p - monitors, v, {g}) && q == v - removed
    requires g in v && g !in removed && g !in replaced
    ensures q == o[g := v[g]] - (removed + replaced)
  {
    forall k | k != g && k !in removed
      ensures k in q <==> k in o && k !in replaced
      ensures k in q ==> q[k] == o[k]
    {
      assert k in v <==> k in p;
    }
  }

  lemma SameDataSameCopy(g: Object<string>, h: Object<string>, namespace: string, name: string)
    requires g.data == h.data
    ensures CopyOf(g, namespace, name) == CopyOf(h, namespace, name)
  {
  }

  /** Destroying once more, over the same gRPC data, changes nothing but what others wrote. */
  lemma SecondDestroyIsIdle(p: Objects<string>, v: Objects<string>, q: Objects<string>, v2: Objects<string>, r: Objects<string>,
                            a: Assets, removed: Addressed<string>, again: Addressed<string>)
    requires WellKinded(a) && DestroyDid(p, v, q, a, removed) && DestroyDid(q, v2, r, a, again)
    requires v2[a.grpcTls].data == v[a.grpcTls].data
    ensures again == removed && r == v2 && SameOutside(q, r, {a.grpcTls})
    ensures a.grpcTls in q && v2[a.grpcTls] == q[a.grpcTls] ==> r == q
  {
    SameDataSameCopy(v[a.grpcTls], v2[a.grpcTls], a.copyName.namespace, a.copyName.name);
    CopyIsNotTheSecret(a, v[a.grpcTls]);
    OwnKeysAre(a);
    RemovedTwice(v, q, v2, r, OwnKeys(a) + {removed.key}, {a.sidecarMonitor.key, a.prometheusMonitor.key}, a.grpcTls);
  }

  lemma RemovedTwice(v: Objects<string>, q: Objects<string>, v2: Objects<string>, r: Objects<string>,
                     gone: set<Key>, monitors: set<Key>, g: Key)
    requires q == v - gone && monitors <= gone && g !in gone
    requires SameOutside(q - monitors, v2, {g}) && r == v2 - gone
    ensures r == v2 && SameOutside(q, r, {g})
    ensures g in q && g in v2 && v2[g] == q[g] ==> r == q
  {
    assert forall k :: k in v2 ==> k !in gone;
  }
}
