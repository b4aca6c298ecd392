/**
  Content-addressed objects: HashSecret and HashTrustedCA of pkg/manifests/manifests.go, and what
  storing one and deleting its predecessors does to the cluster, completed or interrupted.
 */
module Hashed {
  import opened Results
  import opened Metadata
  import opened Cluster
  import opened Fnv

  // ---------- Naming ----------

  /** The values of alternating keys and values, one after the other; an odd last key is ignored. */
  function Values(data: seq<string>): string {
    if |data| < 2 then "" else data[1] + Values(data[2..])
  }

  /** The map those pairs make. */
  function Pairs(data: seq<string>): map<string, string> {
    if |data| < 2 then map[] else map[data[0] := data[1]] + Pairs(data[2..])
  }

  function HashLabels(name: string, hash: string): StringMap {
    map[NAME_LABEL := name, HASH_LABEL := hash]
  }

  function HashedSecretKey(namespace: string, name: string, content: string): Key {
    Key(Secret, namespace, name + "-" + HashOf(content))
  }

  function HashedSecret(name: string, data: seq<string>): Object<string> {
    Object(HashLabels(name, HashOf(Values(data))), map[], Pairs(data))
  }

  /** What a hashed secret is called, and how it is labelled. */
  lemma SecretIs(namespace: string, name: string, data: seq<string>)
    ensures var hash := Format32(Sum(OFFSET_BASIS, Values(data)));
            && HashedSecretKey(namespace, name, Values(data)) == Key(Secret, namespace, name + "-" + hash)
            && HashedSecret(name, data).labels ==
               map["monitoring.openshift.io/name" := name, "monitoring.openshift.io/hash" := hash]
            && HashedSecret(name, data).annotations == map[]
  {
    assert "monitoring.openshift.io/name"[24] != "monitoring.openshift.io/hash"[24];
  }

  lemma PairsNext(m: map<string, string>, data: seq<string>, i: nat)
    requires 2 * i + 1 < |data|
    ensures m + Pairs(data[2 * i..]) == m[data[2 * i] := data[2 * i + 1]] + Pairs(data[2 * i + 2..])
    ensures Values(data[2 * i..]) == data[2 * i + 1] + Values(data[2 * i + 2..])
  {
  }

  method HashSecret(secret: Key, data: seq<string>) returns (key: Key, obj: Object<string>)
    ensures key == HashedSecretKey(secret.namespace, secret.name, Values(data))
    ensures obj == HashedSecret(secret.name, data)
  {
    var h := new Hasher();
    var m: map<string, string> := map[];
    for i := 0 to |data| / 2
      invariant Sum(OFFSET_BASIS, Values(data)) == Sum(h.state, Values(data[2 * i..]))
      invariant Pairs(data) == m + Pairs(data[2 * i..])
    {
      var k, v := data[i * 2], data[i * 2 + 1];
      PairsNext(m, data, i);
      SumConcat(h.state, v, Values(data[2 * i + 2..]));
      h.Write(v);
      m := m[k := v];
    }
    var hash := Format32(h.state);
    key := Key(Secret, secret.namespace, secret.name + "-" + hash);
    obj := Object(map[NAME_LABEL := secret.name, HASH_LABEL := hash], map[], m);
  }

  /** What is hashed before and after the i-th value. */
  function ValuesBefore(data: seq<string>, i: nat): string
    requires 2 * i + 1 < |data|
  {
    if i == 0 then "" else data[1] + ValuesBefore(data[2..], i - 1)
  }

  function ValuesAfter(data: seq<string>, i: nat): string
    requires 2 * i + 1 < |data|
  {
    if i == 0 then Values(data[2..]) else ValuesAfter(data[2..], i - 1)
  }

  lemma {:induction false} ValuesAround(data: seq<string>, i: nat, v: string)
    requires 2 * i + 1 < |data|
    ensures Values(data[2 * i + 1 := v]) == ValuesBefore(data, i) + v + ValuesAfter(data, i)
  {
    if i == 0 {
      assert data[1 := v][2..] == data[2..];
    } else {
      ValuesAround(data[2..], i - 1, v);
      UpdateInRest(data, 2 * i + 1, v);
      ConcatShift(data[1], ValuesBefore(data[2..], i - 1), v, ValuesAfter(data[2..], i - 1));
    }
  }

  lemma UpdateInRest(data: seq<string>, k: nat, v: string)
    requires 2 <= k < |data|
    ensures data[k := v][2..] == data[2..][k - 2 := v]
  {
  }

  lemma ConcatShift(a: string, b: string, c: string, d: string)
    ensures a + (b + c + d) == a + b + c + d
  {
  }

  /** Changing exactly one byte of one value always changes the name. */
  lemma OneByteChangesName(namespace: string, name: string, data: seq<string>, i: nat, p: nat, y: char)
    requires 2 * i + 1 < |data| && p < |data[2 * i + 1]|
    requires IsByte(data[2 * i + 1][p]) && IsByte(y) && y != data[2 * i + 1][p]
    ensures var changed := data[2 * i + 1 := data[2 * i + 1][p := y]];
            HashedSecretKey(namespace, name, Values(data)) != HashedSecretKey(namespace, name, Values(changed))
  {
    var changed := data[2 * i + 1 := data[2 * i + 1][p := y]];
    OneByteChangesValues(data, i, p, y);
    NamesTellHashesApart(name, HashOf(Values(data)), HashOf(Values(changed)));
  }

  lemma OneByteChangesValues(data: seq<string>, i: nat, p: nat, y: char)
    requires 2 * i + 1 < |data| && p < |data[2 * i + 1]|
    requires IsByte(data[2 * i + 1][p]) && IsByte(y) && y != data[2 * i + 1][p]
    ensures HashOf(Values(data)) != HashOf(Values(data[2 * i + 1 := data[2 * i + 1][p := y]]))
  {
    var v := data[2 * i + 1];
    ValuesAround(data, i, v);
    ValuesAround(data, i, v[p := y]);
    UpdateToSame(data, 2 * i + 1);
    OneByteChangesHash(ValuesBefore(data, i), v, p, y, ValuesAfter(data, i));
  }

  lemma UpdateToSame<T>(s: seq<T>, k: nat)
    requires k < |s|
    ensures s[k := s[k]] == s
  {
  }

  lemma SplitAtByte(before: string, v: string, p: nat, y: char, after: string)
    requires p < |v|
    ensures before + v[p := y] + after == (before + v[..p]) + [y] + (v[p + 1..] + after)
  {
  }

  lemma OneByteChangesHash(before: string, v: string, p: nat, y: char, after: string)
    requires p < |v| && IsByte(v[p]) && IsByte(y) && y != v[p]
    ensures HashOf(before + v + after) != HashOf(before + v[p := y] + after)
  {
    SplitAtByte(before, v, p, v[p], after);
    assert v[p := v[p]] == v;
    SplitAtByte(before, v, p, y, after);
    OneByteChangesSum(OFFSET_BASIS, before + v[..p], v[p], y, v[p + 1..] + after);
    FormatInjective(Sum(OFFSET_BASIS, before + v + after), Sum(OFFSET_BASIS, before + v[p := y] + after));
  }

  lemma NamesTellHashesApart(name: string, g: string, h: string)
    ensures name + "-" + g == name + "-" + h <==> g == h
  {
    var n := |name| + 1;
    assert (name + "-" + g)[n..] == g && (name + "-" + h)[n..] == h;
  }

  /** A dangling last key changes nothing. */
  lemma {:induction false} DanglingKeyIgnored(data: seq<string>, k: string)
    requires |data| % 2 == 0
    ensures Values(data + [k]) == Values(data) && Pairs(data + [k]) == Pairs(data)
  {
    if |data| >= 2 {
      assert (data + [k])[2..] == data[2..] + [k];
      DanglingKeyIgnored(data[2..], k);
    }
  }

  // ---------- What the name does not tell apart ----------

  /** Names are equal exactly when the sums of the concatenated values are. */
  lemma NamesShareSums(namespace: string, name: string, a: seq<string>, b: seq<string>)
    ensures HashedSecretKey(namespace, name, Values(a)) == HashedSecretKey(namespace, name, Values(b)) <==>
            Sum(OFFSET_BASIS, Values(a)) == Sum(OFFSET_BASIS, Values(b))
  {
    NamesTellHashesApart(name, HashOf(Values(a)), HashOf(Values(b)));
    FormatInjective(Sum(OFFSET_BASIS, Values(a)), Sum(OFFSET_BASIS, Values(b)));
  }

  lemma ConcatAssociates<T>(a: seq<T>, b: seq<T>, c: seq<T>)
    ensures a + b + c == a + (b + c)
  {
  }

  lemma {:induction false} ValuesConcat(a: seq<string>, b: seq<string>)
    requires |a| % 2 == 0
    ensures Values(a + b) == Values(a) + Values(b)
  {
    if a == [] {
      assert a + b == b;
    } else {
      assert (a + b)[2..] == a[2..] + b;
      ValuesConcat(a[2..], b);
      ConcatAssociates(a[1], Values(a[2..]), Values(b));
    }
  }

  lemma OverrideAssociates<K, V>(f: map<K, V>, g: map<K, V>, h: map<K, V>)
    ensures f + g + h == f + (g + h)
  {
  }

  lemma {:induction false} PairsConcat(a: seq<string>, b: seq<string>)
    requires |a| % 2 == 0
    ensures Pairs(a + b) == Pairs(a) + Pairs(b)
  {
    if a == [] {
      assert a + b == b;
    } else {
      assert (a + b)[2..] == a[2..] + b;
      PairsConcat(a[2..], b);
      OverrideAssociates(map[a[0] := a[1]], Pairs(a[2..]), Pairs(b));
      assert (a + b)[0] == a[0] && (a + b)[1] == a[1];
    }
  }

  lemma TwoPairs(k1: string, u: string, k2: string, v: string)
    ensures Values([k1, u, k2, v]) == u + v
    ensures Pairs([k1, u, k2, v]) == map[k1 := u] + map[k2 := v]
  {
    var d := [k1, u, k2, v];
    assert d[2..] == [k2, v] && d[2..][2..] == [];
    assert Values(d[2..]) == v && Pairs(d[2..]) == map[k2 := v];
  }

  /** Two neighbouring pairs among others. */
  function Around(a: seq<string>, k1: string, u: string, k2: string, v: string, b: seq<string>): seq<string> {
    a + ([k1, u, k2, v] + b)
  }

  lemma AroundMeans(a: seq<string>, k1: string, u: string, k2: string, v: string, b: seq<string>)
    requires |a| % 2 == 0
    ensures Values(Around(a, k1, u, k2, v, b)) == Values(a) + (u + v + Values(b))
    ensures Pairs(Around(a, k1, u, k2, v, b)) == Pairs(a) + (map[k1 := u] + map[k2 := v] + Pairs(b))
  {
    ValuesConcat(a, [k1, u, k2, v] + b);
    PairsConcat(a, [k1, u, k2, v] + b);
    ValuesConcat([k1, u, k2, v], b);
    PairsConcat([k1, u, k2, v], b);
    TwoPairs(k1, u, k2, v);
  }

  /**
    Only the concatenation is hashed: moving c from the end of one value to the front of the next never
    changes the name. It changes the data exactly when c is not empty, unless later pairs give both keys
    anew.
   */
  lemma BoundariesAreNotHashed(namespace: string, name: string, a: seq<string>, b: seq<string>,
                               k1: string, x: string, c: string, k2: string, y: string)
    requires |a| % 2 == 0
    ensures var d, e := Around(a, k1, x + c, k2, y, b), Around(a, k1, x, k2, c + y, b);
            && HashedSecretKey(namespace, name, Values(d)) == HashedSecretKey(namespace, name, Values(e))
            && (HashedSecret(name, d).data != HashedSecret(name, e).data <==>
                c != "" && !(k1 in Pairs(b) && k2 in Pairs(b)))
  {
    AroundMeans(a, k1, x + c, k2, y, b);
    AroundMeans(a, k1, x, k2, c + y, b);
    ConcatAssociates(x, c, y);
    assert c == "" <==> x + c == x;
    assert c == "" <==> y == c + y;
    OverrideDiffers(Pairs(a), Pairs(b), k1, x + c, x, k2, y, c + y);
  }

  lemma OverrideDiffers(f: map<string, string>, g: map<string, string>, k1: string, u1: string, u2: string,
                        k2: string, v1: string, v2: string)
    requires u1 == u2 <==> v1 == v2
    ensures f + (map[k1 := u1] + map[k2 := v1] + g) == f + (map[k1 := u2] + map[k2 := v2] + g) <==>
            u1 == u2 || (k1 in g && k2 in g)
  {
    var m1, m2 := f + (map[k1 := u1] + map[k2 := v1] + g), f + (map[k1 := u2] + map[k2 := v2] + g);
    assert k2 !in g ==> m1[k2] == v1 && m2[k2] == v2;
    assert k1 !in g && k1 != k2 ==> m1[k1] == u1 && m2[k1] == u2;
    assert forall k :: k != k1 && k != k2 ==> (k in m1 <==> k in m2) && (k in m1 ==> m1[k] == m2[k]);
    assert forall k :: k in g ==> k in m1 && k in m2 && m1[k] == g[k] == m2[k];
  }

  // ---------- Storing one and collecting the others ----------

  /** An object labelled with its name and hash, and where it is stored. */
  datatype Addressed<D> = Addressed(key: Key, name: string, hash: string, obj: Object<D>)

  ghost predicate WellLabelled<D>(a: Addressed<D>) {
    && NAME_LABEL in a.obj.labels && a.obj.labels[NAME_LABEL] == a.name
    && HASH_LABEL in a.obj.labels && a.obj.labels[HASH_LABEL] == a.hash
    && a.name != "" && a.hash != ""
  }

  function Stale<D>(o: Objects<D>, a: Addressed<D>): set<Key> {
    StaleKeys(o, a.key.kind, a.key.namespace, a.name, a.hash)
  }

  function Stored<D>(o: Objects<D>, a: Addressed<D>): Objects<D> {
    o[a.key := Put(o, a.key, a.obj)]
  }

  /** The cluster after the object has been stored and its predecessors deleted. */
  function Settled<D>(o: Objects<D>, a: Addressed<D>): Objects<D> {
    Stored(o, a) - Stale(Stored(o, a), a)
  }

  /** The cluster anywhere between the first and the last of those requests. */
  ghost predicate Interrupted<D>(o: Objects<D>, mid: Objects<D>, a: Addressed<D>) {
    mid == o || HasStored(o, mid, a)
  }

  /** The object has been stored, and some of its predecessors deleted. */
  ghost predicate HasStored<D>(o: Objects<D>, mid: Objects<D>, a: Addressed<D>) {
    PartlyDeleted(Stored(o, a), mid, Stale(Stored(o, a), a))
  }

  /** Storing an object under its content's name, then deleting its predecessors one by one. */
  method StoreAddressed<D(!new,==)>(api: Api<D>, a: Addressed<D>) returns (failed: bool)
    modifies api
    ensures Interrupted(old(api.objects), api.objects, a)
    ensures !failed ==> api.objects == Settled(old(api.objects), a)
    ensures api.NeverFails() ==> !failed
    ensures |api.history| >= |old(api.history)| && api.history[..|old(api.history)|] == old(api.history)
    ensures forall i :: |old(api.history)| <= i < |api.history| ==> Interrupted(old(api.objects), api.history[i], a)
    ensures forall i, j :: |old(api.history)| <= i <= j < |api.history| && HasStored(old(api.objects), api.history[i], a) ==>
              HasStored(old(api.objects), api.history[j], a)
    ensures forall i :: |old(api.history)| <= i < |api.history| && HasStored(old(api.objects), api.history[i], a) ==>
              HasStored(old(api.objects), api.objects, a)
  {
    failed := api.CreateOrUpdate(a.key, a.obj);
    if failed {
      return;
    }
    failed := api.DeleteHashed(a.key.kind, a.key.namespace, a.name, a.hash);
  }

  /** All objects of one kind and namespace that carry a name label. */
  function Family<D>(o: Objects<D>, kind: Kind, namespace: string, name: string): set<Key> {
    set k | k in o && k.kind == kind && k.namespace == namespace && Labelled(o[k], name)
  }

  lemma PutKeepsLabels<D>(o: Objects<D>, a: Addressed<D>)
    requires WellLabelled(a)
    ensures Labelled(Put(o, a.key, a.obj), a.name)
    ensures !StaleObject(Put(o, a.key, a.obj), a.name, a.hash)
    ensures Put(o, a.key, a.obj).data == a.obj.data
  {
  }

  /**
    A completed run leaves of the family exactly the object just stored, with its content, plus
    whatever else already carried the very same hash label; everything outside the family is
    untouched, apart from the object's own key.
   */
  lemma SettledExactly<D>(o: Objects<D>, a: Addressed<D>)
    requires WellLabelled(a)
    ensures var f := Settled(o, a);
            && a.key in f && f[a.key].data == a.obj.data
            && Family(f, a.key.kind, a.key.namespace, a.name) == {a.key} + (Family(o, a.key.kind, a.key.namespace, a.name) - Stale(o, a))
            && (forall k :: k !in Family(o, a.key.kind, a.key.namespace, a.name) && k != a.key ==>
                  (k in f <==> k in o) && (k in o ==> f[k] == o[k]))
  {
    PutKeepsLabels(o, a);
    var s := Stored(o, a);
    assert a.key !in Stale(s, a);
    assert forall k :: k != a.key ==> (k in Stale(s, a) <==> k in Stale(o, a));
  }

  /** So exactly one is left precisely when no other object claims the same hash. */
  lemma ExactlyOne<D>(o: Objects<D>, a: Addressed<D>)
    requires WellLabelled(a)
    ensures Family(Settled(o, a), a.key.kind, a.key.namespace, a.name) == {a.key} <==>
            forall k :: k in Family(o, a.key.kind, a.key.namespace, a.name) && k != a.key ==> k in Stale(o, a)
  {
    SettledExactly(o, a);
    var kept := Family(o, a.key.kind, a.key.namespace, a.name) - Stale(o, a);
    if {a.key} + kept == {a.key} {
      forall k | k in Family(o, a.key.kind, a.key.namespace, a.name) && k != a.key
        ensures k in Stale(o, a)
      {
        assert k !in {a.key} + kept;
      }
    }
  }

  /** At every intermediate step some member of a non-empty family exists. */
  lemma FamilyNeverEmpty<D>(o: Objects<D>, mid: Objects<D>, a: Addressed<D>)
    requires WellLabelled(a) && Interrupted(o, mid, a)
    requires Family(o, a.key.kind, a.key.namespace, a.name) != {}
    ensures Family(mid, a.key.kind, a.key.namespace, a.name) != {}
  {
    if mid != o {
      PutKeepsLabels(o, a);
      assert a.key in mid;
      assert a.key in Family(mid, a.key.kind, a.key.namespace, a.name);
    }
  }

  lemma PutTwice<D>(o: Objects<D>, a: Addressed<D>)
    ensures Put(Stored(o, a), a.key, a.obj) == Put(o, a.key, a.obj)
  {
    if a.key in o {
      MergeIdempotent(a.obj.labels, o[a.key].labels);
      MergeIdempotent(a.obj.annotations, o[a.key].annotations);
    } else {
      MergeIdempotent(a.obj.labels, a.obj.labels);
      MergeIdempotent(a.obj.annotations, a.obj.annotations);
    }
  }

  /** An interrupted run followed by a full one ends exactly where one full run ends. */
  lemma CrashTolerant<D>(o: Objects<D>, mid: Objects<D>, a: Addressed<D>)
    requires WellLabelled(a) && Interrupted(o, mid, a)
    ensures Settled(mid, a) == Settled(o, a)
  {
    if mid != o {
      PutKeepsLabels(o, a);
      PutTwice(o, a);
      var s := Stored(o, a);
      assert a.key in mid && mid[a.key] == s[a.key];
      assert Stored(mid, a) == mid;
      forall k
        ensures k in Settled(mid, a) <==> k in Settled(o, a)
        ensures k in Settled(o, a) ==> Settled(mid, a)[k] == Settled(o, a)[k]
      {
        if k in s && k !in Stale(s, a) {
          assert k in mid && mid[k] == s[k];
          assert k !in Stale(mid, a);
        } else if k in mid {
          assert k in s && mid[k] == s[k];
          assert k in Stale(mid, a);
        }
      }
    }
  }
}
