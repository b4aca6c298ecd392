/**
  The cluster as the operator's client sees it: a map of objects behind an API any of whose calls may
  fail, and the create, update and delete operations of pkg/client/client.go that work through it.
  The history records the objects after every write request, so that what holds between two requests
  can be stated.
 */
module Cluster {
  import opened Results
  import opened Metadata

  datatype Kind =
    | Secret | ConfigMap | ServiceAccount | ClusterRole | ClusterRoleBinding
    | Role | RoleBinding | Service | ServiceMonitor | Prometheus

  datatype Key = Key(kind: Kind, namespace: string, name: string)

  datatype Object<D> = Object(labels: StringMap, annotations: StringMap, data: map<string, D>)

  type Objects<D> = map<Key, Object<D>>

  datatype Lookup<D> = Found(obj: Object<D>) | NotFound | ApiError

  datatype Outcome = Done | Missing | Failure

  const NAME_LABEL := "monitoring.openshift.io/name"
  const HASH_LABEL := "monitoring.openshift.io/hash"

  // ---------- Specification ----------

  /** What a create-or-update leaves under a key. */
  function Put<D>(o: Objects<D>, key: Key, obj: Object<D>): Object<D> {
    if key in o then Object(Merged(obj.labels, o[key].labels), Merged(obj.annotations, o[key].annotations), obj.data)
    else obj
  }

  predicate Labelled<D>(obj: Object<D>, name: string) {
    NAME_LABEL in obj.labels && obj.labels[NAME_LABEL] == name
  }

  /** The label selector name=<name>,hash!=<hash>; an object without a hash label satisfies the second half. */
  predicate StaleObject<D>(obj: Object<D>, name: string, hash: string) {
    Labelled(obj, name) && !(HASH_LABEL in obj.labels && obj.labels[HASH_LABEL] == hash)
  }

  function StaleKeys<D>(o: Objects<D>, kind: Kind, namespace: string, name: string, hash: string): set<Key> {
    set k | k in o && k.kind == kind && k.namespace == namespace && StaleObject(o[k], name, hash)
  }

  /** Some of the doomed keys are gone, nothing else has changed. */
  ghost predicate PartlyDeleted<D>(before: Objects<D>, after: Objects<D>, doomed: set<Key>) {
    && (forall k :: k in after ==> k in before && after[k] == before[k])
    && (forall k :: k in before && k !in doomed ==> k in after)
  }

  /** Two clusters that differ at most under the given keys. */
  ghost predicate SameOutside<D>(o: Objects<D>, p: Objects<D>, keys: set<Key>) {
    forall k :: k !in keys ==> (k in p <==> k in o) && (k in o ==> p[k] == o[k])
  }

  ghost function Listed(keys: seq<Key>): set<Key> {
    set k | k in keys
  }

  lemma ListedNext<D>(before: Objects<D>, keys: seq<Key>, i: nat)
    requires i < |keys|
    ensures before - Listed(keys[..i + 1]) == before - Listed(keys[..i]) - {keys[i]}
  {
    assert Listed(keys[..i + 1]) == Listed(keys[..i]) + {keys[i]};
  }

  // ---------- The API ----------

  class Api<D(!new,==)> {
    var objects: Objects<D>
    var calls: nat
    const fails: nat -> bool
    ghost var history: seq<Objects<D>>

    constructor (objects: Objects<D>, fails: nat -> bool)
      ensures this.objects == objects && this.fails == fails && calls == 0 && history == []
    {
      this.objects := objects;
      this.fails := fails;
      calls := 0;
      history := [];
    }

    ghost predicate NeverFails() {
      forall n :: !fails(n)
    }

    method Request() returns (failed: bool)
      modifies `calls
      ensures calls == old(calls) + 1 && failed == fails(old(calls))
    {
      failed := fails(calls);
      calls := calls + 1;
    }

    method Get(key: Key) returns (r: Lookup<D>)
      modifies `calls
      ensures r.Found? ==> key in objects && r.obj == objects[key]
      ensures r.NotFound? ==> key !in objects
      ensures r.ApiError? <==> fails(old(calls))
    {
      var failed := Request();
      r := if failed then ApiError else if key in objects then Found(objects[key]) else NotFound;
    }

    /** Creating an object that exists is an error. */
    method Create(key: Key, obj: Object<D>) returns (failed: bool)
      modifies this
      ensures failed <==> fails(old(calls)) || key in old(objects)
      ensures objects == if failed then old(objects) else old(objects)[key := obj]
      ensures history == old(history) + [objects]
    {
      failed := Request();
      failed := failed || key in objects;
      if !failed {
        objects := objects[key := obj];
      }
      history := history + [objects];
    }

    /** Updating an object that does not exist is an error. */
    method Update(key: Key, obj: Object<D>) returns (failed: bool)
      modifies this
      ensures failed <==> fails(old(calls)) || key !in old(objects)
      ensures objects == if failed then old(objects) else old(objects)[key := obj]
      ensures history == old(history) + [objects]
    {
      failed := Request();
      failed := failed || key !in objects;
      if !failed {
        objects := objects[key := obj];
      }
      history := history + [objects];
    }

    method Delete(key: Key) returns (r: Outcome)
      modifies this
      ensures r.Failure? <==> fails(old(calls))
      ensures r.Missing? <==> !fails(old(calls)) && key !in old(objects)
      ensures objects == if r.Done? then old(objects) - {key} else old(objects)
      ensures history == old(history) + [objects]
    {
      var failed := Request();
      if failed {
        r := Failure;
      } else if key in objects {
        objects := objects - {key};
        r := Outcome.Done;
      } else {
        r := Missing;
      }
      history := history + [objects];
    }

    /** The matching keys, in no particular order. */
    method ListStale(kind: Kind, namespace: string, name: string, hash: string) returns (failed: bool, keys: seq<Key>)
      modifies `calls
      ensures failed <==> fails(old(calls))
      ensures !failed ==> forall k :: k in keys <==> k in StaleKeys(objects, kind, namespace, name, hash)
      ensures !failed ==> forall i, j :: 0 <= i < j < |keys| ==> keys[i] != keys[j]
    {
      keys := [];
      failed := Request();
      var rest := StaleKeys(objects, kind, namespace, name, hash);
      ghost var all := rest;
      while rest != {}
        invariant rest <= all
        invariant forall k :: k in keys <==> k in all - rest
        invariant forall i, j :: 0 <= i < j < |keys| ==> keys[i] != keys[j]
      {
        var k :| k in rest;
        assert forall i :: 0 <= i < |keys| ==> keys[i] in keys;
        keys := keys + [k];
        rest := rest - {k};
      }
    }

    // ---------- Client operations ----------

    method CreateOrUpdate(key: Key, obj: Object<D>) returns (failed: bool)
      modifies this
      ensures objects == if failed then old(objects) else old(objects)[key := Put(old(objects), key, obj)]
      ensures NeverFails() ==> !failed
      ensures history == old(history) || history == old(history) + [objects]
    {
      var existing := Get(key);
      match existing {
        case NotFound =>
          failed := Create(key, obj);
        case ApiError =>
          failed := true;
        case Found(found) =>
          var required := new ObjectMeta(obj.labels, obj.annotations);
          var current := new ObjectMeta(found.labels, found.annotations);
          MergeMetadata(required, current);
          failed := Update(key, Object(required.labels, required.annotations, obj.data));
      }
    }

    /** Services and role bindings: no update is sent while the specification is what is wanted. */
    method CreateOrUpdateUnlessEqual(key: Key, obj: Object<D>) returns (failed: bool)
      modifies this
      ensures objects ==
              if failed || (key in old(objects) && old(objects)[key].data == obj.data) then old(objects)
              else old(objects)[key := Put(old(objects), key, obj)]
      ensures NeverFails() ==> !failed
    {
      var existing := Get(key);
      match existing {
        case NotFound =>
          failed := Create(key, obj);
        case ApiError =>
          failed := true;
        case Found(found) =>
          if found.data == obj.data {
            return false;
          }
          var required := new ObjectMeta(obj.labels, obj.annotations);
          var current := new ObjectMeta(found.labels, found.annotations);
          MergeMetadata(required, current);
          failed := Update(key, Object(required.labels, required.annotations, obj.data));
      }
    }

    /** Cluster role bindings: a changed one is deleted and created anew, so a failure in between loses it. */
    method Recreate(key: Key, obj: Object<D>) returns (failed: bool)
      modifies this
      ensures NeverFails() ==> !failed
      ensures !failed ==>
                objects == if key in old(objects) && old(objects)[key].data == obj.data then old(objects)
                           else old(objects)[key := Put(old(objects), key, obj)]
      ensures failed ==> objects == old(objects) || objects == old(objects) - {key}
    {
      var existing := Get(key);
      match existing {
        case NotFound =>
          failed := Create(key, obj);
        case ApiError =>
          failed := true;
        case Found(found) =>
          if found.data == obj.data {
            return false;
          }
          var required := new ObjectMeta(obj.labels, obj.annotations);
          var current := new ObjectMeta(found.labels, found.annotations);
          MergeMetadata(required, current);
          var r := Delete(key);
          if !r.Done? {
            return true;
          }
          failed := Create(key, Object(required.labels, required.annotations, obj.data));
      }
    }

    method CreateIfNotExist(key: Key, obj: Object<D>) returns (failed: bool)
      modifies this
      ensures objects == if failed || key in old(objects) then old(objects) else old(objects)[key := obj]
      ensures NeverFails() ==> !failed
      ensures history == old(history) || history == old(history) + [objects]
    {
      var existing := Get(key);
      match existing {
        case NotFound =>
          failed := Create(key, obj);
        case ApiError =>
          failed := true;
        case Found(_) =>
          failed := false;
      }
    }

    /** Deleting what is not there is no error. */
    method DeleteIfPresent(key: Key) returns (failed: bool)
      modifies this
      ensures objects == if failed then old(objects) else old(objects) - {key}
      ensures NeverFails() ==> !failed
      ensures history == old(history) + [objects]
    {
      var r := Delete(key);
      failed := r.Failure?;
    }

    /** Deletes every object of the given name label whose hash label is not the given one, one request at a time. */
    method DeleteHashed(kind: Kind, namespace: string, name: string, newHash: string) returns (failed: bool)
      modifies this
      ensures var doomed := StaleKeys(old(objects), kind, namespace, name, newHash);
              && PartlyDeleted(old(objects), objects, doomed)
              && (!failed ==> objects == old(objects) - doomed)
              && (NeverFails() ==> !failed)
      ensures |history| >= |old(history)| && history[..|old(history)|] == old(history)
      ensures forall i :: |old(history)| <= i < |history| ==>
                PartlyDeleted(old(objects), history[i], StaleKeys(old(objects), kind, namespace, name, newHash))
    {
      ghost var before := objects;
      ghost var doomed := StaleKeys(before, kind, namespace, name, newHash);
      ghost var seen := |history|;
      var keys;
      failed, keys := ListStale(kind, namespace, name, newHash);
      if failed {
        return;
      }
      for i := 0 to |keys|
        invariant objects == before - Listed(keys[..i])
        invariant |history| >= seen && history[..seen] == old(history)
        invariant forall j :: seen <= j < |history| ==> PartlyDeleted(before, history[j], doomed)
      {
        assert keys[i] in keys && keys[i] !in keys[..i];
        var r := Delete(keys[i]);
        assert PartlyDeleted(before, objects, doomed);
        if !r.Done? {
          return true;
        }
        ListedNext(before, keys, i);
      }
      assert keys[..|keys|] == keys;
      assert Listed(keys) == doomed;
    }
  }
}
