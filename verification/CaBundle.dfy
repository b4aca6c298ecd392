/**
  caBundleSyncer of pkg/tasks/helpers.go: waiting for a trusted CA bundle to be injected into its
  root ConfigMap, storing a copy under a name that depends on its content, and deleting older copies.
 */
module CaBundle {
  import opened Results
  import opened Metadata
  import opened Cluster
  import opened Fnv
  import opened Hashed

  const BUNDLE_KEY := "ca-bundle.crt"

  function CopyKey(namespace: string, prefix: string, hash: string): Key {
    Key(ConfigMap, namespace, prefix + "-trusted-ca-bundle-" + hash)
  }

  /** The copy of a bundle. */
  function CopyOf(namespace: string, prefix: string, content: string): Addressed<string> {
    var hash := HashOf(content);
    Addressed(CopyKey(namespace, prefix, hash), prefix, hash,
              Object(HashLabels(prefix, hash), map[], map[BUNDLE_KEY := content]))
  }

  datatype BundleError = KeyMissing | KeyEmpty

  method HashTrustedCA(cm: Object<string>, cmNamespace: string, factoryNamespace: string, prefix: string)
      returns (r: Result<Addressed<string>, BundleError>)
    ensures r.Ok? <==> "ca-bundle.crt" in cm.data && cm.data["ca-bundle.crt"] != ""
    ensures r.Err? ==> r.error == if BUNDLE_KEY !in cm.data then KeyMissing else KeyEmpty
    ensures r.Ok? ==>
              r.value == CopyOf(if cmNamespace != "" then cmNamespace else factoryNamespace, prefix, cm.data[BUNDLE_KEY])
  {
    if BUNDLE_KEY !in cm.data {
      return Err(KeyMissing);
    }
    var caBundle := cm.data[BUNDLE_KEY];
    if caBundle == "" {
      return Err(KeyEmpty);
    }
    var h := new Hasher();
    h.Write(caBundle);
    var hash := Format32(h.state);
    var ns := factoryNamespace;
    if cmNamespace != "" {
      ns := cmNamespace;
    }
    r := Ok(Addressed(CopyKey(ns, prefix, hash), prefix, hash,
                      Object(map[NAME_LABEL := prefix, HASH_LABEL := hash], map[], map[BUNDLE_KEY := caBundle])));
  }

  // ---------- Naming ----------

  /** What a copy is: its name, its labels and its data. */
  lemma CopyIs(namespace: string, prefix: string, content: string)
    ensures var a := CopyOf(namespace, prefix, content);
            var hash := Format32(Sum(OFFSET_BASIS, content));
            && a.key == Key(ConfigMap, namespace, prefix + "-trusted-ca-bundle-" + hash)
            && a.name == prefix && a.hash == hash
            && a.obj == Object(map["monitoring.openshift.io/name" := prefix, "monitoring.openshift.io/hash" := hash], map[],
                               map["ca-bundle.crt" := content])
  {
    assert "monitoring.openshift.io/name"[24] != "monitoring.openshift.io/hash"[24];
  }

  lemma CopyKeyTellsHashes(namespace: string, prefix: string, g: string, h: string)
    ensures CopyKey(namespace, prefix, g) == CopyKey(namespace, prefix, h) <==> g == h
  {
    var n := |prefix + "-trusted-ca-bundle-"|;
    assert (prefix + "-trusted-ca-bundle-" + g)[n..] == g && (prefix + "-trusted-ca-bundle-" + h)[n..] == h;
  }

  /** Two bundles get the same copy exactly when their sums agree. */
  lemma CopiesShareSums(namespace: string, prefix: string, a: string, b: string)
    ensures CopyOf(namespace, prefix, a).key == CopyOf(namespace, prefix, b).key <==>
            Sum(OFFSET_BASIS, a) == Sum(OFFSET_BASIS, b)
  {
    CopyKeyTellsHashes(namespace, prefix, HashOf(a), HashOf(b));
    FormatInjective(Sum(OFFSET_BASIS, a), Sum(OFFSET_BASIS, b));
  }

  /** Changing exactly one byte of a bundle always changes the name of its copy. */
  lemma OneByteChangesCopy(namespace: string, prefix: string, content: string, p: nat, y: char)
    requires p < |content| && IsByte(content[p]) && IsByte(y) && y != content[p]
    ensures CopyOf(namespace, prefix, content).key != CopyOf(namespace, prefix, content[p := y]).key
  {
    CopiesShareSums(namespace, prefix, content, content[p := y]);
    assert content == content[..p] + [content[p]] + content[p + 1..];
    assert content[p := y] == content[..p] + [y] + content[p + 1..];
    OneByteChangesSum(OFFSET_BASIS, content[..p], content[p], y, content[p + 1..]);
  }

  /** The root ConfigMaps are named after their prefix. */
  function RootKey(namespace: string, prefix: string): Key {
    Key(ConfigMap, namespace, prefix + "-trusted-ca-bundle")
  }

  /** A copy is never stored over a root, whatever the bundle. */
  lemma CopyIsNotTheRoot(namespace: string, prefix: string, content: string, root: Key)
    requires !(prefix + "-trusted-ca-bundle-" <= root.name)
    ensures CopyOf(namespace, prefix, content).key != root
  {
    var head := prefix + "-trusted-ca-bundle-";
    assert head <= head + HashOf(content);
  }

  lemma RootIsNoCopy(namespace: string, prefix: string, content: string)
    ensures !(prefix + "-trusted-ca-bundle-" <= RootKey(namespace, prefix).name)
    ensures CopyOf(namespace, prefix, content).key != RootKey(namespace, prefix)
  {
    assert |prefix + "-trusted-ca-bundle-"| > |RootKey(namespace, prefix).name|;
    CopyIsNotTheRoot(namespace, prefix, content, RootKey(namespace, prefix));
  }

  lemma CopyWellLabelled(namespace: string, prefix: string, content: string)
    requires prefix != ""
    ensures WellLabelled(CopyOf(namespace, prefix, content))
  {
  }

  /** Nothing but the root ConfigMap has changed, and that keeps its labels if it was there. */
  ghost predicate RootOnly(before: Objects<string>, after: Objects<string>, root: Key) {
    && (forall k :: k != root ==> (k in after <==> k in before) && (k in before ==> after[k] == before[k]))
    && (root in before ==> root in after && after[root].labels == before[root].labels)
  }

  /**
    From the n-th on, each recorded state, and the present one, differs in the root only from the start
    and from every state recorded before it.
   */
  ghost predicate Waiting(o: Objects<string>, history: seq<Objects<string>>, n: nat, now: Objects<string>, root: Key) {
    && n <= |history| && RootOnly(o, now, root)
    && (forall i :: n <= i < |history| ==> RootOnly(o, history[i], root) && RootOnly(history[i], now, root))
    && (forall i, j :: n <= i <= j < |history| ==> RootOnly(history[i], history[j], root))
  }

  lemma WaitingOn(o: Objects<string>, history: seq<Objects<string>>, n: nat, now: Objects<string>,
                  later: Objects<string>, root: Key)
    requires Waiting(o, history, n, now, root) && RootOnly(now, later, root)
    ensures Waiting(o, history + [later], n, later, root)
  {
    forall i | n <= i < |history|
      ensures RootOnly(history[i], later, root)
    {
      RootOnlyChains(history[i], now, later, root);
    }
    RootOnlyChains(o, now, later, root);
  }

  lemma WaitingThenWaiting(o: Objects<string>, first: seq<Objects<string>>, n: nat, mid: Objects<string>,
                           history: seq<Objects<string>>, now: Objects<string>, root: Key)
    requires Waiting(o, first, n, mid, root) && Waiting(mid, history, |first|, now, root)
    requires history[..|first|] == first
    ensures Waiting(o, history, n, now, root)
  {
    assert forall i :: 0 <= i < |first| ==> history[i] == first[i];
    RootOnlyChains(o, mid, now, root);
    forall i | n <= i < |history|
      ensures RootOnly(o, history[i], root) && RootOnly(history[i], now, root)
    {
      RootOnlyChains(if i < |first| then first[i] else o, mid, if i < |first| then now else history[i], root);
    }
    forall i, j | n <= i <= j < |history|
      ensures RootOnly(history[i], history[j], root)
    {
      if i < |first| <= j {
        RootOnlyChains(first[i], mid, history[j], root);
      }
    }
  }

  lemma RootOnlyChains(f: Objects<string>, g: Objects<string>, h: Objects<string>, root: Key)
    requires RootOnly(f, g, root) && RootOnly(g, h, root)
    ensures RootOnly(f, h, root)
  {
  }

  /**
    What may come later in a run: while it waits, a state that differs in the root only; then the
    waited-for cluster, with the copy stored or not; and once the copy is stored it stays so.
   */
  ghost predicate Follows(earlier: Objects<string>, later: Objects<string>, waited: Objects<string>,
                          copy: Option<Addressed<string>>, root: Key) {
    || RootOnly(earlier, later, root)
    || (copy.Some? && RootOnly(earlier, waited, root) && Interrupted(waited, later, copy.value))
    || (copy.Some? && HasStored(waited, earlier, copy.value) && HasStored(waited, later, copy.value))
  }

  predicate HasBundle(data: StringMap) {
    BUNDLE_KEY in data && data[BUNDLE_KEY] != ""
  }

  /** What the CA injector writes into the root ConfigMap while the operator waits. */
  method Inject(api: Api<string>, root: Key, data: StringMap)
    modifies api
    ensures api.objects ==
            if root in old(api.objects) then old(api.objects)[root := old(api.objects)[root].(data := data)]
            else old(api.objects)
    ensures RootOnly(old(api.objects), api.objects, root)
    ensures api.history == old(api.history) + [api.objects]
  {
    if root in api.objects {
      api.objects := api.objects[root := api.objects[root].(data := data)];
    }
    api.history := api.history + [api.objects];
  }

  /** A run's later states follow its earlier ones. */
  ghost predicate Orderly(o: Objects<string>, history: seq<Objects<string>>, n: nat, now: Objects<string>,
                          waited: Objects<string>, copy: Option<Addressed<string>>, root: Key) {
    && n <= |history| && Follows(o, now, waited, copy, root)
    && (forall i :: n <= i < |history| ==>
          Follows(o, history[i], waited, copy, root) && Follows(history[i], now, waited, copy, root))
    && (forall i, j :: n <= i <= j < |history| ==> Follows(history[i], history[j], waited, copy, root))
  }

  lemma StoringIsOrderly(o: Objects<string>, early: seq<Objects<string>>, n: nat, w: Objects<string>,
                         history: seq<Objects<string>>, now: Objects<string>, a: Addressed<string>, root: Key)
    requires Waiting(o, early, n, w, root)
    requires |early| <= |history| && forall i :: 0 <= i < |early| ==> history[i] == early[i]
    requires Interrupted(w, now, a)
    requires forall i :: |early| <= i < |history| ==> Interrupted(w, history[i], a)
    requires forall i, j :: |early| <= i <= j < |history| && HasStored(w, history[i], a) ==> HasStored(w, history[j], a)
    requires forall i :: |early| <= i < |history| && HasStored(w, history[i], a) ==> HasStored(w, now, a)
    ensures Orderly(o, history, n, now, w, Some(a), root)
  {
    forall i, j | n <= i <= j < |history|
      ensures Follows(history[i], history[j], w, Some(a), root)
    {
      if j >= |early| && i < |early| {
        assert RootOnly(early[i], w, root);
      }
    }
    forall i | n <= i < |history|
      ensures Follows(o, history[i], w, Some(a), root) && Follows(history[i], now, w, Some(a), root)
    {
      if i < |early| {
        assert RootOnly(early[i], w, root);
      }
    }
  }

  /** Polls the root ConfigMap, once per attempt, until it holds a bundle; the injector may write before any poll. */
  method WaitForBundle(api: Api<string>, root: Key, attempts: seq<Option<StringMap>>) returns (lastCM: Option<Object<string>>)
    requires root in api.objects
    modifies api
    ensures Waiting(old(api.objects), api.history, |old(api.history)|, api.objects, root)
    ensures api.history[..|old(api.history)|] == old(api.history)
    ensures lastCM.Some? ==>
              && root in api.objects && lastCM.value == api.objects[root]
              && HasBundle(lastCM.value.data)
    ensures lastCM.Some? ==> "ca-bundle.crt" in lastCM.value.data && |lastCM.value.data["ca-bundle.crt"]| > 0
    ensures api.NeverFails() && lastCM.None? ==>
              && (forall i :: 0 <= i < |attempts| && attempts[i].Some? ==>
                    !("ca-bundle.crt" in attempts[i].value && |attempts[i].value["ca-bundle.crt"]| > 0))
              && (|attempts| > 0 && attempts[0].None? ==> !HasBundle(old(api.objects)[root].data))
  {
    ghost var seen := |api.history|;
    for i := 0 to |attempts|
      invariant root in api.objects && seen <= |api.history| && api.history[..seen] == old(api.history)
      invariant Waiting(old(api.objects), api.history, seen, api.objects, root)
      invariant i == 0 ==> api.objects == old(api.objects)
      invariant api.NeverFails() ==> forall j :: 0 <= j < i && attempts[j].Some? ==> !HasBundle(attempts[j].value)
      invariant api.NeverFails() && i > 0 && attempts[0].None? ==> !HasBundle(old(api.objects)[root].data)
    {
      if attempts[i].Some? {
        ghost var states, now := api.history, api.objects;
        Inject(api, root, attempts[i].value);
        WaitingOn(old(api.objects), states, seen, now, api.objects, root);
      }
      var got := api.Get(root);
      if got.Found? && HasBundle(got.obj.data) {
        return Some(got.obj);
      }
    }
    return None;
  }

  class CaBundleSyncer {
    const prefix: string
    const factoryNamespace: string
    const api: Api<string>

    constructor (prefix: string, factoryNamespace: string, api: Api<string>)
      ensures this.prefix == prefix && this.factoryNamespace == factoryNamespace && this.api == api
    {
      this.prefix, this.factoryNamespace, this.api := prefix, factoryNamespace, api;
    }

    /** Creates the root ConfigMap if need be, then waits for its bundle. */
    method ObtainBundle(root: Key, trustedCA: Object<string>, attempts: seq<Option<StringMap>>)
        returns (lastCM: Option<Object<string>>)
      modifies api
      ensures Waiting(old(api.objects), api.history, |old(api.history)|, api.objects, root)
      ensures api.history[..|old(api.history)|] == old(api.history)
      ensures root !in old(api.objects) && root in api.objects ==> api.objects[root].labels == trustedCA.labels
      ensures lastCM.Some? ==>
                root in api.objects && lastCM.value == api.objects[root] && HasBundle(lastCM.value.data)
      ensures api.NeverFails() && lastCM.None? ==>
                forall i :: 0 <= i < |attempts| && attempts[i].Some? ==> !HasBundle(attempts[i].value)
    {
      var failed := api.CreateIfNotExist(root, trustedCA);
      assert Waiting(old(api.objects), api.history, |old(api.history)|, api.objects, root);
      if failed {
        return None;
      }
      ghost var states, now := api.history, api.objects;
      lastCM := WaitForBundle(api, root, attempts);
      WaitingThenWaiting(old(api.objects), states, |old(api.history)|, now, api.history, api.objects, root);
    }

    /**
      The ghost result is the cluster once the waiting is over. Every later state, and every state in
      the history, is that cluster with the copy stored and some of its predecessors deleted.
     */
    method SyncTrustedCABundle(root: Key, trustedCA: Object<string>, attempts: seq<Option<StringMap>>)
        returns (failed: bool, copy: Option<Addressed<string>>, ghost waited: Objects<string>)
      requires root.namespace != ""
      modifies api
      ensures RootOnly(old(api.objects), waited, root)
      ensures root !in old(api.objects) && root in waited ==> waited[root].labels == trustedCA.labels
      ensures copy.Some? ==>
                && root in waited && HasBundle(waited[root].data)
                && copy.value == CopyOf(root.namespace, prefix, waited[root].data[BUNDLE_KEY])
                && Interrupted(waited, api.objects, copy.value)
      ensures copy.None? ==> failed && api.objects == waited
      ensures !failed ==> copy.Some? && api.objects == Settled(waited, copy.value)
      ensures api.NeverFails() && failed ==>
                forall i :: 0 <= i < |attempts| && attempts[i].Some? ==> !HasBundle(attempts[i].value)
      ensures Orderly(old(api.objects), api.history, |old(api.history)|, api.objects, waited, copy, root)
      ensures api.history[..|old(api.history)|] == old(api.history)
    {
      var lastCM := ObtainBundle(root, trustedCA, attempts);
      waited := api.objects;
      if lastCM.None? {
        return true, None, waited;
      }
      ghost var early := api.history;
      var hashedCM := HashTrustedCA(lastCM.value, root.namespace, factoryNamespace, prefix);
      if hashedCM.Err? {
        return true, None, waited;
      }
      copy := Some(hashedCM.value);
      failed := StoreAddressed(api, hashedCM.value);
      assert forall i :: 0 <= i < |early| ==> api.history[i] == early[i];
      StoringIsOrderly(old(api.objects), early, |old(api.history)|, waited, api.history, api.objects, hashedCM.value, root);
    }
  }

  // ---------- What a run means ----------

  /** Every copy in the family is stored under the name its hash label gives. */
  ghost predicate HashNamed(o: Objects<string>, namespace: string, prefix: string) {
    forall k :: k in Family(o, ConfigMap, namespace, prefix) && HASH_LABEL in o[k].labels ==>
      k == CopyKey(namespace, prefix, o[k].labels[HASH_LABEL])
  }

  lemma RootOnlyKeepsFamily(o: Objects<string>, w: Objects<string>, root: Key, prefix: string)
    requires RootOnly(o, w, root)
    requires root !in o && root in w ==> !Labelled(w[root], prefix)
    ensures Family(w, ConfigMap, root.namespace, prefix) == Family(o, ConfigMap, root.namespace, prefix)
    ensures HashNamed(o, root.namespace, prefix) <==> HashNamed(w, root.namespace, prefix)
  {
  }

  lemma InterruptedKeepsNames(o: Objects<string>, mid: Objects<string>, namespace: string, prefix: string, content: string)
    requires prefix != "" && HashNamed(o, namespace, prefix)
    requires Interrupted(o, mid, CopyOf(namespace, prefix, content))
    ensures HashNamed(mid, namespace, prefix)
  {
  }

  /**
    A completed run leaves exactly one copy, holding the root bundle, and touches nothing outside the
    family but the root and the copy.
   */
  lemma CompletedSync(o: Objects<string>, w: Objects<string>, root: Key, prefix: string, content: string)
    requires prefix != "" && HashNamed(o, root.namespace, prefix)
    requires RootOnly(o, w, root) && (root !in o && root in w ==> !Labelled(w[root], prefix))
    ensures var a := CopyOf(root.namespace, prefix, content);
            var f := Settled(w, a);
            && Family(f, ConfigMap, root.namespace, prefix) == {a.key}
            && f[a.key].data == map[BUNDLE_KEY := content]
            && HashNamed(f, root.namespace, prefix)
            && forall k :: k !in Family(o, ConfigMap, root.namespace, prefix) && k != root && k != a.key ==>
                 (k in f <==> k in o) && (k in o ==> f[k] == o[k])
  {
    var a := CopyOf(root.namespace, prefix, content);
    CopyWellLabelled(root.namespace, prefix, content);
    RootOnlyKeepsFamily(o, w, root, prefix);
    SettledExactly(w, a);
    ExactlyOne(w, a);
    InterruptedKeepsNames(w, Settled(w, a), root.namespace, prefix, content);
  }

  /** A completed run leaves the root ConfigMap as its wait found it. */
  lemma SyncKeepsRoot(w: Objects<string>, root: Key, prefix: string, content: string)
    requires root in w && !Labelled(w[root], prefix) && !(prefix + "-trusted-ca-bundle-" <= root.name)
    ensures var f := Settled(w, CopyOf(root.namespace, prefix, content));
            root in f && f[root] == w[root]
  {
    CopyIsNotTheRoot(root.namespace, prefix, content, root);
  }

  /** Once the family has a member, it has one at every later step of the run, whichever step comes first. */
  lemma SyncIsStepSafe(g: Objects<string>, h: Objects<string>, w: Objects<string>, root: Key, prefix: string,
                       content: string)
    requires prefix != "" && Follows(g, h, w, Some(CopyOf(root.namespace, prefix, content)), root)
    requires Family(g, ConfigMap, root.namespace, prefix) != {}
    ensures Family(h, ConfigMap, root.namespace, prefix) != {}
  {
    var a := CopyOf(root.namespace, prefix, content);
    var k :| k in Family(g, ConfigMap, root.namespace, prefix);
    CopyWellLabelled(root.namespace, prefix, content);
    if RootOnly(g, h, root) {
      assert k in Family(h, ConfigMap, root.namespace, prefix);
    } else if RootOnly(g, w, root) && Interrupted(w, h, a) {
      assert k in Family(w, ConfigMap, root.namespace, prefix);
      FamilyNeverEmpty(w, h, a);
    } else {
      PutKeepsLabels(w, a);
      assert a.key in Family(h, ConfigMap, root.namespace, prefix);
    }
  }

  /**
    A run interrupted anywhere after its bundle was known, followed by a full run that finds the same
    bundle, ends exactly where a single full run over the same root ConfigMap ends.
   */
  lemma InterruptedThenFull(o: Objects<string>, w: Objects<string>, mid: Objects<string>, w2: Objects<string>,
                            root: Key, prefix: string, content: string)
    requires prefix != "" && !(prefix + "-trusted-ca-bundle-" <= root.name)
    requires var a := CopyOf(root.namespace, prefix, content);
             RootOnly(o, w, root) && Interrupted(w, mid, a) && RootOnly(mid, w2, root)
    requires root in w && root in w2 && !Labelled(w[root], prefix) && w2[root].labels == w[root].labels
    ensures var a := CopyOf(root.namespace, prefix, content);
            && RootOnly(o, w[root := w2[root]], root)
            && Settled(w2, a) == Settled(w[root := w2[root]], a)
  {
    var a := CopyOf(root.namespace, prefix, content);
    CopyWellLabelled(root.namespace, prefix, content);
    CopyIsNotTheRoot(root.namespace, prefix, content, root);
    RootMovesAlong(w, mid, w2, root, a);
    RootReplaced(o, w, root, w2[root]);
    CrashTolerant(w[root := w2[root]], w2, a);
  }

  lemma RootReplaced(o: Objects<string>, w: Objects<string>, root: Key, obj: Object<string>)
    requires RootOnly(o, w, root) && root in w && obj.labels == w[root].labels
    ensures RootOnly(o, w[root := obj], root)
  {
  }

  /** A later write to the root does not disturb an interrupted run. */
  lemma RootMovesAlong(w: Objects<string>, mid: Objects<string>, w2: Objects<string>, root: Key, a: Addressed<string>)
    requires Interrupted(w, mid, a) && RootOnly(mid, w2, root) && root in w && root in w2
    requires !Labelled(w[root], a.name) && w2[root].labels == w[root].labels && root != a.key
    ensures Interrupted(w[root := w2[root]], w2, a)
  {
    var single := w[root := w2[root]];
    if mid == w {
      assert w2 == single;
    } else {
      var s := Stored(single, a);
      RootNotStale(w, root, w2[root], a);
      assert PartlyDeleted(s, w2, Stale(s, a));
    }
  }

  lemma RootNotStale(w: Objects<string>, root: Key, obj: Object<string>, a: Addressed<string>)
    requires root in w && !Labelled(w[root], a.name) && obj.labels == w[root].labels && root != a.key
    ensures Stored(w[root := obj], a) == Stored(w, a)[root := obj]
    ensures Stale(Stored(w[root := obj], a), a) == Stale(Stored(w, a), a)
  {
  }

  /** Whatever an interrupted run left, the next full run leaves exactly one copy, of its own bundle. */
  lemma RecoversAfterInterruption(o: Objects<string>, w: Objects<string>, mid: Objects<string>, w2: Objects<string>,
                                  root: Key, prefix: string, first: string, second: string)
    requires prefix != "" && HashNamed(o, root.namespace, prefix)
    requires RootOnly(o, w, root) && (root !in o && root in w ==> !Labelled(w[root], prefix))
    requires Interrupted(w, mid, CopyOf(root.namespace, prefix, first))
    requires RootOnly(mid, w2, root) && (root !in mid && root in w2 ==> !Labelled(w2[root], prefix))
    ensures var a := CopyOf(root.namespace, prefix, second);
            Family(Settled(w2, a), ConfigMap, root.namespace, prefix) == {a.key} &&
            Settled(w2, a)[a.key].data == map[BUNDLE_KEY := second]
  {
    RootOnlyKeepsFamily(o, w, root, prefix);
    InterruptedKeepsNames(w, mid, root.namespace, prefix, first);
    CompletedSync(mid, w2, root, prefix, second);
  }
}
