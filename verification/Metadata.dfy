/**
  mergeMetadata of pkg/client/client.go: carrying over the labels and annotations that other actors
  put on an object, but never a stale one of the operator's own. mergo.Merge is taken to fill a key
  of its destination only where that key is absent or empty.
 */
module Metadata {
  import opened Results

  type StringMap = map<string, string>

  const METADATA_PREFIX := "monitoring.openshift.io/"

  predicate OperatorKey(k: string) {
    METADATA_PREFIX <= k
  }

  function Filtered(m: StringMap): StringMap {
    map k | k in m && !OperatorKey(k) :: m[k]
  }

  function Filled(dst: StringMap, src: StringMap): StringMap {
    map k | k in dst.Keys + src.Keys :: if k in dst && (dst[k] != "" || k !in src) then dst[k] else src[k]
  }

  function Merged(required: StringMap, existing: StringMap): StringMap {
    Filled(required, Filtered(existing))
  }

  class ObjectMeta {
    var labels: StringMap
    var annotations: StringMap

    constructor (labels: StringMap, annotations: StringMap)
      ensures this.labels == labels && this.annotations == annotations
    {
      this.labels := labels;
      this.annotations := annotations;
    }
  }

  method DropOperatorKeys(m: StringMap) returns (r: StringMap)
    ensures r == Filtered(m)
  {
    r := m;
    var rest := m.Keys;
    while rest != {}
      invariant rest <= m.Keys
      invariant r == map k | k in m && !(k in m.Keys - rest && OperatorKey(k)) :: m[k]
    {
      var k :| k in rest;
      if METADATA_PREFIX <= k {
        r := r - {k};
      }
      rest := rest - {k};
    }
  }

  method MergeMetadata(required: ObjectMeta, existing: ObjectMeta)
    requires required != existing
    modifies required, existing
    ensures required.labels == Merged(old(required.labels), old(existing.labels))
    ensures required.annotations == Merged(old(required.annotations), old(existing.annotations))
    ensures forall k :: k in existing.labels <==> k in old(existing.labels) && !("monitoring.openshift.io/" <= k)
    ensures existing.labels == Filtered(old(existing.labels))
    ensures existing.annotations == Filtered(old(existing.annotations))
  {
    existing.annotations := DropOperatorKeys(existing.annotations);
    existing.labels := DropOperatorKeys(existing.labels);
    required.annotations := Filled(required.annotations, existing.annotations);
    required.labels := Filled(required.labels, existing.labels);
  }

  // ---------- Any sequence of reconciles ----------

  /** What is stored after reconciling to each desired map in turn; the first one is created if nothing was there. */
  function Reconciled(start: Option<StringMap>, desired: seq<StringMap>): Option<StringMap> {
    if desired == [] then start
    else
      var last := desired[|desired| - 1];
      match Reconciled(start, desired[..|desired| - 1])
      case None => Some(last)
      case Some(m) => Some(Merged(last, m))
  }

  ghost predicate SetsAt(desired: seq<StringMap>, i: nat, k: string) {
    i < |desired| && k in desired[i] && desired[i][k] != ""
  }

  /** The i-th desired map is the latest that gives the key a value. */
  ghost predicate LatestSetter(desired: seq<StringMap>, i: nat, k: string) {
    SetsAt(desired, i, k) && forall j: nat :: i < j ==> !SetsAt(desired, j, k)
  }

  ghost predicate EverPresent(start: Option<StringMap>, desired: seq<StringMap>, k: string) {
    (start.Some? && k in start.value) || exists i :: 0 <= i < |desired| && k in desired[i]
  }

  function Initial(start: Option<StringMap>, k: string): string {
    if start.Some? && k in start.value then start.value[k] else ""
  }

  lemma HistoryNext(start: Option<StringMap>, desired: seq<StringMap>, k: string)
    requires desired != []
    ensures var n := |desired| - 1;
            var p := desired[..n];
            && (EverPresent(start, desired, k) <==> EverPresent(start, p, k) || k in desired[n])
            && (forall i: nat :: i < n ==> SetsAt(desired, i, k) == SetsAt(p, i, k))
            && (forall i: nat :: LatestSetter(desired, i, k) <==>
                  if SetsAt(desired, n, k) then i == n else LatestSetter(p, i, k))
  {
  }

  lemma {:induction false} ForeignKeyHistory(start: Option<StringMap>, desired: seq<StringMap>, k: string)
    requires desired != [] && !OperatorKey(k)
    ensures var r := Reconciled(start, desired);
            && r.Some?
            && (k in r.value <==> EverPresent(start, desired, k))
            && (forall i: nat :: LatestSetter(desired, i, k) ==> k in r.value && r.value[k] == desired[i][k])
            && ((forall i: nat :: !SetsAt(desired, i, k)) && k in r.value ==> r.value[k] == Initial(start, k))
    decreases |desired|
  {
    var n := |desired| - 1;
    HistoryNext(start, desired, k);
    if n > 0 {
      ForeignKeyHistory(start, desired[..n], k);
    }
    assert SetsAt(desired, n, k) <==> k in desired[n] && desired[n][k] != "";
  }

  /**
    After any non-empty sequence of reconciles: the operator's own keys are exactly those of the last
    desired map, with its values; every other key ever present is still there, with the value of the
    latest desired map that set it non-empty, or else with what it started with.
   */
  lemma MetadataAfterReconciles(start: Option<StringMap>, desired: seq<StringMap>)
    requires desired != []
    ensures var r := Reconciled(start, desired);
            var last := desired[|desired| - 1];
            && r.Some?
            && (forall k :: OperatorKey(k) ==> (k in r.value <==> k in last) && (k in last ==> r.value[k] == last[k]))
            && (forall k :: !OperatorKey(k) ==> (k in r.value <==> EverPresent(start, desired, k)))
            && (forall k, i: nat :: !OperatorKey(k) && LatestSetter(desired, i, k) ==> r.value[k] == desired[i][k])
            && (forall k :: !OperatorKey(k) && k in r.value && (forall i: nat :: !SetsAt(desired, i, k)) ==>
                  r.value[k] == Initial(start, k))
  {
    ForeignKeyHistory(start, desired, "");
    forall k | !OperatorKey(k)
      ensures k in Reconciled(start, desired).value <==> EverPresent(start, desired, k)
      ensures forall i: nat :: LatestSetter(desired, i, k) ==>
                k in Reconciled(start, desired).value && Reconciled(start, desired).value[k] == desired[i][k]
      ensures (forall i: nat :: !SetsAt(desired, i, k)) && k in Reconciled(start, desired).value ==>
                Reconciled(start, desired).value[k] == Initial(start, k)
    {
      ForeignKeyHistory(start, desired, k);
    }
  }

  /** Repeating a reconcile changes nothing. */
  lemma MergeIdempotent(required: StringMap, existing: StringMap)
    ensures Merged(required, Merged(required, existing)) == Merged(required, existing)
    ensures Merged(required, required) == required
  {
  }

  lemma RepeatChangesNothing(start: Option<StringMap>, desired: seq<StringMap>)
    requires desired != []
    ensures Reconciled(start, desired + [desired[|desired| - 1]]) == Reconciled(start, desired)
  {
    var n := |desired| - 1;
    var again := desired + [desired[n]];
    assert again[..n + 1] == desired;
    match Reconciled(start, desired[..n]) {
      case None => MergeIdempotent(desired[n], map[]);
      case Some(m) => MergeIdempotent(desired[n], m);
    }
  }
}
