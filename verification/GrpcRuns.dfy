/** What holds of the stored gRPC secret over whole runs of the rotating task. */
module GrpcRuns {
  import opened Results
  import opened Metadata
  import opened Cluster
  import opened Grpc

  type Store = Option<Object<Pem>>

  /**
    A task run, whose store request completes at some instant and whose API requests may fail; someone
    annotating the secret; or just an instant at which the stored material is used.
   */
  datatype Event =
    | TaskRun(env: Env, finish: int, apiWorks: bool)
    | Annotate(annotations: StringMap)
    | Instant(at: int)

  predicate Succeeds(st: Store, e: Event, days: nat) {
    e.TaskRun? && e.apiWorks && TaskResult(st, e.env, days).Some?
  }

  function Apply(st: Store, e: Event, days: nat): Store {
    match e
    case TaskRun(env, _, _) => if Succeeds(st, e, days) then TaskResult(st, env, days) else st
    case Annotate(annotations) => if st.Some? then Some(st.value.(annotations := annotations)) else None
    case Instant(_) => st
  }

  function After(start: Store, events: seq<Event>, days: nat): Store {
    if events == [] then start
    else Apply(After(start, events[..|events| - 1], days), events[|events| - 1], days)
  }

  function CAOf(st: Store): Option<CA> {
    if st.Some? then StoredCA(st.value.data) else None
  }

  // ---------- The bundle ----------

  function CertAt(data: Data, key: string): Option<Cert> {
    if key in data && data[key].CertPem? then Some(data[key].cert) else None
  }

  /** A certificate signed by the CA, for the key stored beside it, that does not expire before the CA. */
  ghost predicate IssuedBy(data: Data, crt: string, key: string, ca: CA) {
    && CertAt(data, crt).Some? && key in data && data[key].KeyPem?
    && CertAt(data, crt).value.issuer == ca.key
    && CertAt(data, crt).value.subject == data[key].key
    && CertAt(data, crt).value.notAfter >= ca.cert.notAfter
  }

  /** A CA whose certificate is for its key, and client and server certificates issued by it. */
  ghost predicate Coherent(data: Data) {
    var ca := StoredCA(data);
    && ca.Some? && ca.value.cert.subject == ca.value.key
    && IssuedBy(data, CLIENT_CRT, CLIENT_KEY, ca.value)
    && IssuedBy(data, SERVER_CRT, SERVER_KEY, ca.value)
  }

  lemma WithBundleReads(data: Data, ca: CA, env: Env, days: nat)
    ensures var d := WithBundle(data, ca, env, days);
            && StoredCA(d) == Some(ca)
            && CertAt(d, CLIENT_CRT) == Some(Issue(env.clientKey, ca.key, env.clientSerial, env.clientAt, days))
            && CertAt(d, SERVER_CRT) == Some(Issue(env.serverKey, ca.key, env.serverSerial, env.serverAt, days))
            && CLIENT_KEY in d && d[CLIENT_KEY] == KeyPem(env.clientKey)
            && SERVER_KEY in d && d[SERVER_KEY] == KeyPem(env.serverKey)
  {
  }

  // ---------- What a rotation stores ----------

  /**
    Valid from the whole second of the clock reading, less one second, to the last whole second at or
    before the reading plus so many days of 86400 seconds.
   */
  ghost predicate ValidFor(c: Cert, now: int, days: nat) {
    && c.notBefore % 1_000_000_000 == 0
    && c.notBefore <= now - 1_000_000_000 < c.notBefore + 1_000_000_000
    && c.notAfter % 1_000_000_000 == 0
    && c.notAfter <= now + days * 86_400 * 1_000_000_000 < c.notAfter + 1_000_000_000
  }

  lemma IssuedIsValidFor(subject: nat, issuer: nat, serial: int, now: int, days: nat)
    ensures ValidFor(Issue(subject, issuer, serial, now, days), now, days)
  {
    LastWholeSecond(now - SECOND);
    LastWholeSecond(now + Lifetime(days));
  }

  lemma LastWholeSecond(t: int)
    ensures WholeSeconds(t) % SECOND == 0 && WholeSeconds(t) <= t < WholeSeconds(t) + SECOND
  {
  }

  ghost predicate StoresCert(data: Data, crt: string, subject: nat, issuer: nat, serial: int, now: int, days: nat) {
    && crt in data && data[crt].CertPem?
    && var c := data[crt].cert;
       c.subject == subject && c.issuer == issuer && c.serial == serial && ValidFor(c, now, days)
  }

  ghost predicate StoresKey(data: Data, name: string, key: nat) {
    name in data && data[name] == KeyPem(key)
  }

  /** The bundle of one rotation, under a CA key; nothing else in the data differs. */
  ghost predicate StoresBundle(before: Data, after: Data, subject: nat, key: nat, serial: int, env: Env, days: nat) {
    && StoresCert(after, "ca.crt", subject, key, serial, env.caAt, days)
    && StoresKey(after, "ca.key", key)
    && StoresCert(after, "thanos-querier-client.crt", env.clientKey, key, env.clientSerial, env.clientAt, days)
    && StoresKey(after, "thanos-querier-client.key", env.clientKey)
    && StoresCert(after, "prometheus-server.crt", env.serverKey, key, env.serverSerial, env.serverAt, days)
    && StoresKey(after, "prometheus-server.key", env.serverKey)
    && forall k :: k !in {"ca.crt", "ca.key", "thanos-querier-client.crt", "thanos-querier-client.key",
                          "prometheus-server.crt", "prometheus-server.key"} ==>
         (k in after <==> k in before) && (k in before ==> after[k] == before[k])
  }

  lemma WithBundleStores(data: Data, ca: CA, env: Env, days: nat)
    requires ca.cert.issuer == ca.key && ValidFor(ca.cert, env.caAt, days)
    ensures StoresBundle(data, WithBundle(data, ca, env, days), ca.cert.subject, ca.key, ca.cert.serial, env, days)
  {
    WithBundleReads(data, ca, env, days);
    IssuedIsValidFor(env.clientKey, ca.key, env.clientSerial, env.clientAt, days);
    IssuedIsValidFor(env.serverKey, ca.key, env.serverSerial, env.serverAt, days);
  }

  /** The secret holds a certificate and a key where those of its CA belong. */
  ghost predicate Readable(data: Data) {
    && "ca.crt" in data && data["ca.crt"].CertPem?
    && "ca.key" in data && data["ca.key"].KeyPem?
  }

  /** What a rotation issues, certificate by certificate. A readable CA keeps its key and gets the next serial. */
  lemma RotationStores(data: Data, nilData: bool, annotations: StringMap, env: Env, days: nat)
    requires Rotate(data, nilData, annotations, env, days).Rotated?
    ensures var after := Rotate(data, nilData, annotations, env, days).data;
            if Readable(data)
            then StoresBundle(data, after, data["ca.crt"].cert.subject, data["ca.key"].key, data["ca.crt"].cert.serial + 1, env, days)
            else StoresBundle(data, after, env.newKey, env.newKey, env.newSerial, env, days)
  {
    var ca := NextCA(StoredCA(data), env, days);
    IssuedIsValidFor(ca.cert.subject, ca.cert.issuer, ca.cert.serial, env.caAt, days);
    WithBundleStores(data, ca, env, days);
  }

  /** A successful run that rotates stores exactly such a bundle. */
  lemma RunStoresBundle(st: Store, e: Event, days: nat)
    requires Succeeds(st, e, days) && Rotating(st, e.env, days).Rotated?
    ensures var data := if st.Some? then st.value.data else map[];
            var after := Apply(st, e, days);
            && after.Some?
            && if Readable(data)
               then StoresBundle(data, after.value.data, data["ca.crt"].cert.subject, data["ca.key"].key,
                                 data["ca.crt"].cert.serial + 1, e.env, days)
               else StoresBundle(data, after.value.data, e.env.newKey, e.env.newKey, e.env.newSerial, e.env, days)
  {
    StepData(st, e, days);
    if st.Some? {
      RotationStores(st.value.data, st.value.data == map[], st.value.annotations, e.env, days);
    } else {
      RotationStores(map[], false, map[], e.env, days);
    }
  }

  /** Durations saturate at 64 bits. */
  function Saturated(d: int): int {
    if d > 0x7fff_ffff_ffff_ffff then 0x7fff_ffff_ffff_ffff else if d < -0x8000_0000_0000_0000 then -0x8000_0000_0000_0000 else d
  }

  /** When a CA is due: less than a fifth of its validity is left, counted without any rounding. */
  lemma DueExactly(c: Cert, now: int)
    ensures var span := Saturated(c.notAfter - c.notBefore);
            NeedsNewCert(c, now) <==>
            if span >= 0 then 5 * (c.notAfter - now + 1) <= span else 5 * (c.notAfter - now) < span
  {
  }

  /** A run leaves the secret alone exactly when its CA is readable and not due, and no rotation is forced. */
  lemma KeptExactly(data: Data, nilData: bool, annotations: StringMap, env: Env, days: nat)
    ensures var r := Rotate(data, nilData, annotations, env, days);
            && (r.Kept? <==>
                  Readable(data) && !NeedsNewCert(data["ca.crt"].cert, env.checkedAt) &&
                  "monitoring.openshift.io/grpc-tls-forced-rotate" !in annotations)
            && (r.Rotated? <==> !r.Kept? && env.fails.None? && !nilData)
            && (r.Kept? || r.Rotated? ==>
                  r.annotations == annotations - {"monitoring.openshift.io/grpc-tls-forced-rotate"})
  {
    assert Readable(data) <==> StoredCA(data).Some?;
    if env.fails.Some? {
      match env.fails.value {
        case MakeCA =>
        case EncodeCA =>
        case MakeClient =>
        case EncodeClient =>
        case MakeServer =>
        case EncodeServer =>
      }
    }
  }

  lemma WholeSecondsMonotone(s: int, t: int)
    requires s <= t
    ensures WholeSeconds(s) <= WholeSeconds(t)
    ensures t - SECOND < WholeSeconds(t) <= t
  {
  }

  lemma RotatedIsCoherent(data: Data, env: Env, days: nat)
    requires env.Monotone()
    requires StoredCA(data).Some? ==> StoredCA(data).value.cert.subject == StoredCA(data).value.key
    ensures Coherent(WithBundle(data, NextCA(StoredCA(data), env, days), env, days))
  {
    var ca := NextCA(StoredCA(data), env, days);
    WithBundleReads(data, ca, env, days);
    WholeSecondsMonotone(env.caAt + Lifetime(days), env.clientAt + Lifetime(days));
    WholeSecondsMonotone(env.caAt + Lifetime(days), env.serverAt + Lifetime(days));
  }

  /** The shape of every step: the data is kept, or rotated. */
  lemma StepData(st: Store, e: Event, days: nat)
    ensures Succeeds(st, e, days) ==> Apply(st, e, days).Some?
    ensures var data := if st.Some? then st.value.data else map[];
            Succeeds(st, e, days) ==>
              Apply(st, e, days).value.data ==
              if Rotating(st, e.env, days).Rotated?
              then WithBundle(data, NextCA(StoredCA(data), e.env, days), e.env, days)
              else data
    ensures !Succeeds(st, e, days) ==>
              Apply(st, e, days).Some? == st.Some? &&
              (st.Some? ==> Apply(st, e, days).value.data == st.value.data)
  {
  }

  ghost predicate CoherentIfReadable(st: Store) {
    CAOf(st).Some? ==> Coherent(st.value.data)
  }

  /**
    The stored bundle is always coherent: from a missing, an unreadable or a coherent secret, over any
    run with any failures, whenever a CA can be read the client and server certificates beside it are
    issued by it and outlive it.
   */
  lemma {:induction false} BundleAlwaysCoherent(start: Store, events: seq<Event>, days: nat)
    requires CoherentIfReadable(start)
    requires forall i :: 0 <= i < |events| && events[i].TaskRun? ==> events[i].env.Monotone()
    ensures CoherentIfReadable(After(start, events, days))
  {
    if events != [] {
      var n := |events| - 1;
      BundleAlwaysCoherent(start, events[..n], days);
      var st := After(start, events[..n], days);
      StepData(st, events[n], days);
      if Succeeds(st, events[n], days) && Rotating(st, events[n].env, days).Rotated? {
        RotatedIsCoherent(if st.Some? then st.value.data else map[], events[n].env, days);
      }
    }
  }

  // ---------- Key and serial ----------

  function Rotations(start: Store, events: seq<Event>, days: nat): nat {
    if events == [] then 0
    else
      var n := |events| - 1;
      var st := After(start, events[..n], days);
      Rotations(start, events[..n], days) +
      if Succeeds(st, events[n], days) && Rotating(st, events[n].env, days).Rotated? then 1 else 0
  }

  /**
    While a CA can be read its key never changes, nor the key its certificate is for, and its serial
    is what it started with plus the number of rotations.
   */
  lemma {:induction false} SerialCountsRotations(start: Store, events: seq<Event>, days: nat)
    requires CAOf(start).Some?
    ensures var ca := CAOf(After(start, events, days));
            && ca.Some?
            && ca.value.key == CAOf(start).value.key
            && ca.value.cert.subject == CAOf(start).value.cert.subject
            && ca.value.cert.serial == CAOf(start).value.cert.serial + Rotations(start, events, days)
  {
    if events != [] {
      var n := |events| - 1;
      SerialCountsRotations(start, events[..n], days);
      var st := After(start, events[..n], days);
      StepData(st, events[n], days);
      if events[n].TaskRun? {
        WithBundleReads(st.value.data, NextCA(CAOf(st), events[n].env, days), events[n].env, days);
      }
    }
  }

  // ---------- Expiry ----------

  lemma FreshSpan(subject: nat, issuer: nat, serial: int, now: int, days: nat)
    ensures var c := Issue(subject, issuer, serial, now, days);
            && c.notAfter - c.notBefore == Lifetime(days) + SECOND
            && now - SECOND < c.notAfter - Lifetime(days) <= now
  {
  }

  /** A freshly issued CA is due again exactly in the last fifth of its validity. */
  lemma FreshIsDueInLastFifth(cur: Option<CA>, env: Env, days: nat, now: int)
    requires Lifetime(days) + SECOND <= MAX_DURATION
    ensures var c := NextCA(cur, env, days).cert;
            && MaxWait(c) == (Lifetime(days) + SECOND) / 5
            && (NeedsNewCert(c, now) <==> now > c.notAfter - (Lifetime(days) + SECOND) / 5)
  {
    var c := NextCA(cur, env, days).cert;
    FreshSpan(c.subject, c.issuer, c.serial, env.caAt, days);
  }

  function TimeOf(e: Event): Option<int> {
    match e
    case TaskRun(_, finish, _) => Some(finish)
    case Annotate(_) => None
    case Instant(at) => Some(at)
  }

  /** When the last successful run read its clock to check the CA. */
  function LastCheck(start: Store, events: seq<Event>, days: nat): Option<int> {
    if events == [] then None
    else
      var n := |events| - 1;
      if Succeeds(After(start, events[..n], days), events[n], days) then Some(events[n].env.checkedAt)
      else LastCheck(start, events[..n], days)
  }

  /** Nothing happens later than one fifth of the stored CA's validity after the last successful check. */
  ghost predicate Timely(start: Store, events: seq<Event>, days: nat) {
    forall i :: 0 <= i < |events| ==> TimelyAt(start, events, i, days)
  }

  ghost predicate TimelyAt(start: Store, events: seq<Event>, i: nat, days: nat)
    requires i < |events|
  {
    var st, check := After(start, events[..i], days), LastCheck(start, events[..i], days);
    check.Some? && CAOf(st).Some? && TimeOf(events[i]).Some? ==>
      TimeOf(events[i]).value <= check.value + MaxWait(CAOf(st).value.cert)
  }

  ghost predicate ClocksRunForward(events: seq<Event>) {
    forall i :: 0 <= i < |events| && events[i].TaskRun? ==> events[i].env.Monotone()
  }

  /** The CA checked last stays valid for a fifth of its validity after the check. */
  ghost predicate Covered(st: Store, check: Option<int>) {
    check.Some? ==> CAOf(st).Some? && check.value + MaxWait(CAOf(st).value.cert) <= CAOf(st).value.cert.notAfter
  }

  lemma CheckCovers(st: Store, e: Event, days: nat)
    requires days >= 1 && Succeeds(st, e, days) && e.env.Monotone()
    ensures Covered(Apply(st, e, days), Some(e.env.checkedAt))
  {
  }

  lemma {:induction false} CoveredThroughout(start: Store, events: seq<Event>, days: nat)
    requires days >= 1 && ClocksRunForward(events)
    ensures Covered(After(start, events, days), LastCheck(start, events, days))
  {
    if events != [] {
      var n := |events| - 1;
      CoveredThroughout(start, events[..n], days);
      var st := After(start, events[..n], days);
      StepData(st, events[n], days);
      if Succeeds(st, events[n], days) {
        CheckCovers(st, events[n], days);
      }
    }
  }

  /**
    No expiry: whatever was stored at first, if after each successful check the next one completes
    within a fifth of the validity of the CA then stored, then at every instant after the first
    successful check the stored CA has not expired. If the secret was missing, unreadable or coherent
    at first, neither have the client and the server certificate.
   */
  lemma NothingExpires(start: Store, events: seq<Event>, days: nat, i: nat)
    requires days >= 1 && ClocksRunForward(events) && Timely(start, events, days)
    requires i < |events| && LastCheck(start, events[..i], days).Some? && TimeOf(events[i]).Some?
    ensures var st, now := After(start, events[..i], days), TimeOf(events[i]).value;
            && CAOf(st).Some?
            && now <= CAOf(st).value.cert.notAfter
            && (CoherentIfReadable(start) ==>
                  && CertAt(st.value.data, CLIENT_CRT).Some? && now <= CertAt(st.value.data, CLIENT_CRT).value.notAfter
                  && CertAt(st.value.data, SERVER_CRT).Some? && now <= CertAt(st.value.data, SERVER_CRT).value.notAfter)
  {
    CoveredThroughout(start, events[..i], days);
    assert TimelyAt(start, events, i, days);
    if CoherentIfReadable(start) {
      BundleAlwaysCoherent(start, events[..i], days);
    }
  }

  // ---------- Forced rotation ----------

  /** A successful run consumes the forced-rotate annotation of the stored object, not just of its copy. */
  lemma ForcedIsConsumed(st: Store, e: Event, days: nat)
    requires Succeeds(st, e, days)
    ensures Apply(st, e, days).Some? && FORCED_ROTATE !in Apply(st, e, days).value.annotations
  {
  }

  /** A run within the window rotates nothing and leaves the secret as it is. */
  lemma QuietRun(st: Store, e: Event, days: nat)
    requires e.TaskRun? && CAOf(st).Some? && FORCED_ROTATE !in st.value.annotations
    requires !NeedsNewCert(CAOf(st).value.cert, e.env.checkedAt)
    ensures Apply(st, e, days) == st
  {
    MergeIdempotent(st.value.labels, st.value.labels);
    assert st.value.annotations - {FORCED_ROTATE} == st.value.annotations;
    MergeIdempotent(st.value.annotations, st.value.annotations);
  }

  /** Runs, instants and annotations that neither force nor need a rotation. */
  ghost predicate Undisturbed(ca: CA, events: seq<Event>) {
    forall i :: 0 <= i < |events| ==>
      match events[i]
      case TaskRun(env, _, _) => !NeedsNewCert(ca.cert, env.checkedAt)
      case Annotate(annotations) => FORCED_ROTATE !in annotations
      case Instant(_) => true
  }

  lemma {:induction false} QuietRuns(st: Store, events: seq<Event>, days: nat)
    requires CAOf(st).Some? && FORCED_ROTATE !in st.value.annotations
    requires Undisturbed(CAOf(st).value, events)
    ensures var w := After(st, events, days);
            && w.Some? && w.value.data == st.value.data && FORCED_ROTATE !in w.value.annotations
            && Rotations(st, events, days) == 0
            && ((forall i :: 0 <= i < |events| ==> !events[i].Annotate?) ==> w == st)
  {
    if events != [] {
      var n := |events| - 1;
      QuietRuns(st, events[..n], days);
      if events[n].TaskRun? {
        QuietRun(After(st, events[..n], days), events[n], days);
      }
    }
  }

  /**
    Forced rotation happens exactly once: one successful run over a readable CA whose secret carries
    the annotation raises the serial by one under the same key and removes the annotation, and no
    later run before the last fifth of the new validity rotates anything.
   */
  lemma ForcedRotationOnce(st: Store, e: Event, later: seq<Event>, days: nat)
    requires Succeeds(st, e, days) && CAOf(st).Some? && FORCED_ROTATE in st.value.annotations
    requires CAOf(Apply(st, e, days)).Some? ==> Undisturbed(CAOf(Apply(st, e, days)).value, later)
    ensures var ca := CAOf(Apply(st, e, days));
            && ca.Some? && ca.value.key == CAOf(st).value.key
            && ca.value.cert.serial == CAOf(st).value.cert.serial + 1
            && FORCED_ROTATE !in Apply(st, e, days).value.annotations
            && CAOf(After(Apply(st, e, days), later, days)) == ca
            && Rotations(Apply(st, e, days), later, days) == 0
  {
    StepData(st, e, days);
    WithBundleReads(st.value.data, NextCA(CAOf(st), e.env, days), e.env, days);
    ForcedIsConsumed(st, e, days);
    QuietRuns(Apply(st, e, days), later, days);
  }

  // ---------- A secret without data ----------

  /** With nothing failing, a run succeeds exactly when the stored secret, if there is one, has some data. */
  lemma SucceedsUnlessEmpty(st: Store, env: Env, days: nat)
    requires env.fails.None?
    ensures TaskResult(st, env, days).Some? <==> (st.Some? ==> st.value.data != map[])
  {
  }

  /** A stored secret without any data is never repaired: every run fails on its nil map. */
  lemma {:induction false} EmptySecretStaysEmpty(start: Store, events: seq<Event>, days: nat)
    requires start.Some? && start.value.data == map[]
    ensures After(start, events, days).Some? && After(start, events, days).value.data == map[]
  {
    if events != [] {
      var n := |events| - 1;
      EmptySecretStaysEmpty(start, events[..n], days);
      StepData(After(start, events[..n], days), events[n], days);
    }
  }
}
