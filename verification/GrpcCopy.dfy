/**
  The block that PrometheusTask.Run and PrometheusUserWorkloadTask.create share: wait for the gRPC
  secret, copy three of its values into a secret named by their hash, and delete the older copies.
 */
module GrpcCopy {
  import opened Results
  import opened Metadata
  import opened Cluster
  import opened Fnv
  import opened Hashed

  /** A value of the secret's data; a missing key reads as empty. */
  function Datum(obj: Object<string>, key: string): string {
    if key in obj.data then obj.data[key] else ""
  }

  function CopiedPairs(grpc: Object<string>): seq<string> {
    [ "ca.crt", Datum(grpc, "ca.crt"),
      "server.crt", Datum(grpc, "prometheus-server.crt"),
      "server.key", Datum(grpc, "prometheus-server.key") ]
  }

  /** The copy under a base name, in a namespace. */
  function CopyOf(grpc: Object<string>, namespace: string, name: string): Addressed<string> {
    var data := CopiedPairs(grpc);
    Addressed(HashedSecretKey(namespace, name, Values(data)), name, HashOf(Values(data)), HashedSecret(name, data))
  }

  lemma CopyWellLabelled(grpc: Object<string>, namespace: string, name: string)
    requires name != ""
    ensures WellLabelled(CopyOf(grpc, namespace, name)) && CopyOf(grpc, namespace, name).key.kind == Secret
  {
  }

  /** The copy carries exactly three values of the gRPC secret, each as it is there or empty if it is not. */
  lemma CopyCarriesValues(grpc: Object<string>, namespace: string, name: string)
    ensures var data := CopyOf(grpc, namespace, name).obj.data;
            && data.Keys == {"ca.crt", "server.crt", "server.key"}
            && data["ca.crt"] == (if "ca.crt" in grpc.data then grpc.data["ca.crt"] else "")
            && data["server.crt"] == (if "prometheus-server.crt" in grpc.data then grpc.data["prometheus-server.crt"] else "")
            && data["server.key"] == (if "prometheus-server.key" in grpc.data then grpc.data["prometheus-server.key"] else "")
  {
    assert "ca.crt"[0] != "server.crt"[0] && "ca.crt"[0] != "server.key"[0] && "server.crt"[7] != "server.key"[7];
    ThreePairs("ca.crt", Datum(grpc, "ca.crt"), "server.crt", Datum(grpc, "prometheus-server.crt"),
               "server.key", Datum(grpc, "prometheus-server.key"));
  }

  lemma ThreePairs(k1: string, v1: string, k2: string, v2: string, k3: string, v3: string)
    requires k1 != k2 && k1 != k3 && k2 != k3
    ensures Pairs([k1, v1, k2, v2, k3, v3]) == map[k1 := v1, k2 := v2, k3 := v3]
    ensures Values([k1, v1, k2, v2, k3, v3]) == v1 + v2 + v3
  {
    var d := [k1, v1, k2, v2, k3, v3];
    assert d[2..] == [k2, v2, k3, v3] && d[2..][2..] == [k3, v3] && d[2..][2..][2..] == [];
    assert Pairs(d[2..][2..]) == map[k3 := v3] && Values(d[2..][2..]) == v3;
    assert Pairs(d[2..]) == map[k2 := v2] + map[k3 := v3] && Values(d[2..]) == v2 + v3;
  }

  /** The secret is complete: none of its values is empty. */
  predicate Ready(grpc: Object<string>) {
    forall k :: k in grpc.data ==> grpc.data[k] != ""
  }

  /** The secret is there, and complete. */
  predicate HoldsReady(o: Objects<string>, key: Key) {
    key in o && Ready(o[key])
  }

  // ---------- Waiting, while others write ----------

  /** What other actors do to the secret before a poll. */
  datatype Change = Untouched | Written(obj: Object<string>) | Removed

  function AfterChange(o: Objects<string>, key: Key, c: Change): Objects<string> {
    match c
    case Untouched => o
    case Written(obj) => o[key := obj]
    case Removed => o - {key}
  }

  function AfterChanges(o: Objects<string>, key: Key, cs: seq<Change>): Objects<string> {
    if cs == [] then o else AfterChange(AfterChanges(o, key, cs[..|cs| - 1]), key, cs[|cs| - 1])
  }

  lemma {:induction false} AfterChangesElsewhere(o: Objects<string>, key: Key, cs: seq<Change>)
    ensures SameOutside(o, AfterChanges(o, key, cs), {key})
  {
    if cs != [] {
      AfterChangesElsewhere(o, key, cs[..|cs| - 1]);
    }
  }

  lemma AfterNextChange(o: Objects<string>, key: Key, cs: seq<Change>, i: nat)
    requires i < |cs|
    ensures AfterChanges(o, key, cs[..i + 1]) == AfterChange(AfterChanges(o, key, cs[..i]), key, cs[i])
  {
    assert cs[..i + 1][..i] == cs[..i];
  }

  /** No poll could have found the secret complete. */
  ghost predicate NeverReady(o: Objects<string>, key: Key, cs: seq<Change>) {
    forall i :: 0 < i <= |cs| ==> !HoldsReady(AfterChanges(o, key, cs[..i]), key)
  }

  method OthersChange(api: Api<string>, key: Key, c: Change)
    modifies api
    ensures api.objects == AfterChange(old(api.objects), key, c)
    ensures api.history == old(api.history) + [api.objects]
    ensures api.calls == old(api.calls)
  {
    match c {
      case Untouched =>
      case Written(obj) =>
        api.objects := api.objects[key := obj];
      case Removed =>
        api.objects := api.objects - {key};
    }
    api.history := api.history + [api.objects];
  }

  method AllValuesPresent(obj: Object<string>) returns (ready: bool)
    ensures ready <==> Ready(obj)
  {
    var rest := obj.data.Keys;
    while rest != {}
      invariant rest <= obj.data.Keys
      invariant forall k :: k in obj.data.Keys - rest ==> obj.data[k] != ""
    {
      var k :| k in rest;
      if |obj.data[k]| == 0 {
        return false;
      }
      rest := rest - {k};
    }
    return true;
  }

  /**
    Polls until the secret is there and none of its values is empty; others may write it before any
    poll. The ghost result counts the polls: the last one alone may have found the secret complete.
   */
  method WaitForSecret(api: Api<string>, key: Key, changes: seq<Change>)
      returns (result: Option<Object<string>>, ghost polls: nat)
    modifies api
    ensures polls <= |changes| && api.objects == AfterChanges(old(api.objects), key, changes[..polls])
    ensures forall i :: 0 < i < polls ==> !HoldsReady(AfterChanges(old(api.objects), key, changes[..i]), key)
    ensures result.Some? ==> polls > 0 && HoldsReady(api.objects, key) && result.value == api.objects[key]
    ensures result.Some? ==> forall k :: k in result.value.data ==> |result.value.data[k]| > 0
    ensures api.NeverFails() && result.None? && key in api.objects && polls > 0 ==>
              exists k :: k in api.objects[key].data && |api.objects[key].data[k]| == 0
    ensures api.NeverFails() && result.None? ==> polls == |changes| && (polls > 0 ==> !HoldsReady(api.objects, key))
  {
    polls := 0;
    for i := 0 to |changes|
      invariant polls == i && api.objects == AfterChanges(old(api.objects), key, changes[..i])
      invariant forall j :: 0 < j <= i ==> !HoldsReady(AfterChanges(old(api.objects), key, changes[..j]), key)
    {
      OthersChange(api, key, changes[i]);
      AfterNextChange(old(api.objects), key, changes, i);
      polls := i + 1;
      var got := api.Get(key);
      match got {
        case NotFound =>
        case ApiError =>
          return None, polls;
        case Found(obj) =>
          var ready := AllValuesPresent(obj);
          if ready {
            return Some(obj), polls;
          }
      }
    }
    return None, polls;
  }

  method HashGrpcSecret(grpc: Object<string>, secret: Key) returns (a: Addressed<string>)
    ensures a == CopyOf(grpc, secret.namespace, secret.name)
  {
    var key, obj := HashSecret(secret, [
      "ca.crt", Datum(grpc, "ca.crt"),
      "server.crt", Datum(grpc, "prometheus-server.crt"),
      "server.key", Datum(grpc, "prometheus-server.key") ]);
    a := Addressed(key, secret.name, obj.labels[HASH_LABEL], obj);
  }

  /** The whole block; the copy is None when the wait ended without a secret. */
  method CopyGrpcSecret(api: Api<string>, grpcKey: Key, secret: Key, changes: seq<Change>)
      returns (failed: bool, copy: Option<Addressed<string>>, ghost polls: nat)
    requires secret.kind == Secret
    modifies api
    ensures polls <= |changes|
    ensures var waited := AfterChanges(old(api.objects), grpcKey, changes[..polls]);
            && (copy.None? ==> failed && api.objects == waited)
            && (copy.Some? ==>
                  && HoldsReady(waited, grpcKey)
                  && copy.value == CopyOf(waited[grpcKey], secret.namespace, secret.name)
                  && Interrupted(waited, api.objects, copy.value))
            && (!failed ==> copy.Some? && api.objects == Settled(waited, copy.value))
    ensures api.NeverFails() && failed ==> NeverReady(old(api.objects), grpcKey, changes)
  {
    var grpcTLS;
    grpcTLS, polls := WaitForSecret(api, grpcKey, changes);
    if grpcTLS.None? {
      return true, None, polls;
    }
    var a := HashGrpcSecret(grpcTLS.value, secret);
    copy := Some(a);
    failed := StoreAddressed(api, a);
  }
}
