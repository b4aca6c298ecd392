/**
  Rotation of the gRPC key material: needsNewCert and RotateGRPCSecret of pkg/manifests/tls.go, and the
  load, rotate and store steps of ClusterMonitoringOperatorTask.Run. Certificates are abstract: the key
  they certify, the key that signed them, a serial, and their validity (section 4.1.2.5 of RFC 5280).
  Times are nanoseconds; a certificate keeps whole seconds only.
 */
module Grpc {
  import opened Results
  import opened Metadata
  import opened Cluster

  // ---------- Time ----------

  const SECOND := 1_000_000_000
  const MAX_DURATION := 0x7fff_ffff_ffff_ffff
  const MIN_DURATION := -0x8000_0000_0000_0000

  /** Time differences saturate. */
  function Sub(a: int, b: int): int {
    if a - b > MAX_DURATION then MAX_DURATION else if a - b < MIN_DURATION then MIN_DURATION else a - b
  }

  /** Integer division by five, truncated toward zero. */
  function Fifth(d: int): int {
    if d >= 0 then d / 5 else -((-d) / 5)
  }

  function WholeSeconds(t: int): int {
    t - t % SECOND
  }

  function Lifetime(days: nat): nat {
    days * 24 * 3600 * SECOND
  }

  // ---------- Certificates ----------

  datatype Cert = Cert(subject: nat, issuer: nat, serial: int, notBefore: int, notAfter: int)

  datatype CA = CA(cert: Cert, key: nat)

  /** What a data value of the secret decodes to. */
  datatype Pem = CertPem(cert: Cert) | KeyPem(key: nat) | Garbage(bytes: string)

  function GetCAFromBytes(crt: Pem, key: Pem): Option<CA> {
    if crt.CertPem? && key.KeyPem? then Some(CA(crt.cert, key.key)) else None
  }

  function MaxWait(c: Cert): int {
    Fifth(Sub(c.notAfter, c.notBefore))
  }

  predicate NeedsNewCert(c: Cert, now: int) {
    now > c.notAfter - MaxWait(c)
  }

  function Issue(subject: nat, issuer: nat, serial: int, now: int, days: nat): Cert {
    Cert(subject, issuer, serial, WholeSeconds(now - SECOND), WholeSeconds(now + Lifetime(days)))
  }

  // ---------- Rotation ----------

  const CA_CRT := "ca.crt"
  const CA_KEY := "ca.key"
  const CLIENT_CRT := "thanos-querier-client.crt"
  const CLIENT_KEY := "thanos-querier-client.key"
  const SERVER_CRT := "prometheus-server.crt"
  const SERVER_KEY := "prometheus-server.key"
  const FORCED_ROTATE := "monitoring.openshift.io/grpc-tls-forced-rotate"

  type Data = map<string, Pem>

  datatype CertStep = MakeCA | EncodeCA | MakeClient | EncodeClient | MakeServer | EncodeServer

  /**
    What one run gets from its surroundings: clock readings, keys and serials from the random source,
    and the step of the certificate library that fails, if any.
   */
  datatype Env = Env(checkedAt: int, caAt: int, clientAt: int, serverAt: int,
                     newKey: nat, newSerial: int, clientKey: nat, clientSerial: int, serverKey: nat, serverSerial: int,
                     fails: Option<CertStep>)
  {
    predicate Monotone() {
      checkedAt <= caAt <= clientAt <= serverAt
    }
  }

  datatype Rotation = Kept(annotations: StringMap) | Rotated(data: Data, annotations: StringMap) | Broken | Panicked

  /** The CA a secret holds, if both halves of it can be read. */
  function StoredCA(data: Data): Option<CA> {
    if CA_CRT in data && CA_KEY in data then GetCAFromBytes(data[CA_CRT], data[CA_KEY]) else None
  }

  predicate WantsRotation(data: Data, annotations: StringMap, now: int) {
    StoredCA(data).None? || NeedsNewCert(StoredCA(data).value.cert, now) || FORCED_ROTATE in annotations
  }

  function NextCA(cur: Option<CA>, env: Env, days: nat): CA {
    match cur
    case None => CA(Issue(env.newKey, env.newKey, env.newSerial, env.caAt, days), env.newKey)
    case Some(ca) => CA(Issue(ca.cert.subject, ca.key, ca.cert.serial + 1, env.caAt, days), ca.key)
  }

  function WithBundle(data: Data, ca: CA, env: Env, days: nat): Data {
    data[CA_CRT := CertPem(ca.cert)][CA_KEY := KeyPem(ca.key)]
        [CLIENT_CRT := CertPem(Issue(env.clientKey, ca.key, env.clientSerial, env.clientAt, days))]
        [CLIENT_KEY := KeyPem(env.clientKey)]
        [SERVER_CRT := CertPem(Issue(env.serverKey, ca.key, env.serverSerial, env.serverAt, days))]
        [SERVER_KEY := KeyPem(env.serverKey)]
  }

  /** nilData: the secret came without any data, so its data map cannot be written to. */
  function Rotate(data: Data, nilData: bool, annotations: StringMap, env: Env, days: nat): Rotation {
    var left := annotations - {FORCED_ROTATE};
    if !WantsRotation(data, annotations, env.checkedAt) then Kept(left)
    else if env.fails == Some(MakeCA) || env.fails == Some(EncodeCA) then Broken
    else if nilData then Panicked
    else if env.fails == Some(MakeClient) || env.fails == Some(EncodeClient)
         || env.fails == Some(MakeServer) || env.fails == Some(EncodeServer) then Broken
    else Rotated(WithBundle(data, NextCA(StoredCA(data), env, days), env, days), left)
  }

  /** The secret as it is held in memory during a run. */
  class SecretCopy {
    var data: Data
    var nilData: bool
    var annotations: StringMap

    constructor (data: Data, nilData: bool, annotations: StringMap)
      ensures this.data == data && this.nilData == nilData && this.annotations == annotations
    {
      this.data, this.nilData, this.annotations := data, nilData, annotations;
    }
  }

  datatype RotateOutcome = Fine | Failing | Panic

  method RotateGRPCSecret(s: SecretCopy, env: Env, days: nat) returns (r: RotateOutcome)
    modifies s
    ensures var spec := Rotate(old(s.data), old(s.nilData), old(s.annotations), env, days);
            && (r.Failing? <==> spec.Broken?)
            && (r.Panic? <==> spec.Panicked?)
            && (r.Fine? ==> s.data == if spec.Rotated? then spec.data else old(s.data))
            && (r.Fine? ==> s.annotations == spec.annotations)
  {
    var crtPresent, keyPresent := CA_CRT in s.data, CA_KEY in s.data;
    var rotate := !crtPresent || !keyPresent;
    var curCA: Option<CA> := None;
    if crtPresent && keyPresent {
      curCA := GetCAFromBytes(s.data[CA_CRT], s.data[CA_KEY]);
      if curCA.None? {
        rotate := true;
      } else if NeedsNewCert(curCA.value.cert, env.checkedAt) {
        rotate := true;
      }
    }
    if FORCED_ROTATE in s.annotations {
      rotate := true;
      s.annotations := s.annotations - {FORCED_ROTATE};
    }
    if !rotate {
      return Fine;
    }
    var newCA;
    r, newCA := NewCA(curCA, env, days);
    if r.Fine? {
      r := WriteBundle(s, newCA, env, days);
    }
  }

  /** Signs the next CA: a fresh self-signed one, or the old one under the same key with the next serial. */
  method NewCA(curCA: Option<CA>, env: Env, days: nat) returns (r: RotateOutcome, newCA: CA)
    ensures newCA == NextCA(curCA, env, days)
    ensures r == if env.fails == Some(MakeCA) then Failing else Fine
  {
    if curCA.None? {
      newCA := CA(Issue(env.newKey, env.newKey, env.newSerial, env.caAt, days), env.newKey);
    } else {
      var template := curCA.value.cert;
      template := template.(notBefore := env.caAt - SECOND, notAfter := env.caAt + Lifetime(days));
      template := template.(serial := template.serial + 1);
      var signed := Cert(template.subject, curCA.value.key, template.serial,
                         WholeSeconds(template.notBefore), WholeSeconds(template.notAfter));
      newCA := CA(signed, curCA.value.key);
    }
    r := if env.fails == Some(MakeCA) then Failing else Fine;
  }

  /** Writes the CA, then the client and the server certificate it signs; a failure leaves the copy half written. */
  method WriteBundle(s: SecretCopy, newCA: CA, env: Env, days: nat) returns (r: RotateOutcome)
    modifies s`data
    ensures r.Panic? <==> env.fails != Some(EncodeCA) && s.nilData
    ensures r.Fine? <==> !s.nilData && env.fails !in {Some(EncodeCA), Some(MakeClient), Some(EncodeClient),
                                                      Some(MakeServer), Some(EncodeServer)}
    ensures r.Fine? ==> s.data == WithBundle(old(s.data), newCA, env, days)
  {
    if env.fails == Some(EncodeCA) {
      return Failing;
    }
    if s.nilData {
      return Panic;
    }
    s.data := s.data[CA_CRT := CertPem(newCA.cert)];
    s.data := s.data[CA_KEY := KeyPem(newCA.key)];
    if env.fails == Some(MakeClient) || env.fails == Some(EncodeClient) {
      return Failing;
    }
    s.data := s.data[CLIENT_CRT := CertPem(Issue(env.clientKey, newCA.key, env.clientSerial, env.clientAt, days))];
    s.data := s.data[CLIENT_KEY := KeyPem(env.clientKey)];
    if env.fails == Some(MakeServer) || env.fails == Some(EncodeServer) {
      return Failing;
    }
    s.data := s.data[SERVER_CRT := CertPem(Issue(env.serverKey, newCA.key, env.serverSerial, env.serverAt, days))];
    s.data := s.data[SERVER_KEY := KeyPem(env.serverKey)];
    return Fine;
  }

  // ---------- Load, rotate, store ----------

  function Rotating(stored: Option<Object<Pem>>, env: Env, days: nat): Rotation {
    if stored.None? then Rotate(map[], false, map[], env, days)
    else Rotate(stored.value.data, stored.value.data == map[], stored.value.annotations, env, days)
  }

  /** What a run that succeeds leaves stored; None when it cannot succeed. */
  function TaskResult(stored: Option<Object<Pem>>, env: Env, days: nat): Option<Object<Pem>> {
    match Rotating(stored, env, days)
    case Broken => None
    case Panicked => None
    case Kept(annotations) =>
      if stored.None? then Some(Object(map[], annotations, map[]))
      else Some(Object(Merged(stored.value.labels, stored.value.labels),
                       Merged(annotations, stored.value.annotations), stored.value.data))
    case Rotated(data, annotations) =>
      if stored.None? then Some(Object(map[], annotations, data))
      else Some(Object(Merged(stored.value.labels, stored.value.labels),
                       Merged(annotations, stored.value.annotations), data))
  }

  function StoredUnder<D>(o: Objects<D>, key: Key): Option<Object<D>> {
    if key in o then Some(o[key]) else None
  }

  /**
    The gRPC part of one task run. An object the API server returns without data has a nil data map.
    The store is one request: either the whole new secret is there or nothing has changed.
   */
  method RunTask(api: Api<Pem>, key: Key, env: Env, days: nat) returns (r: RotateOutcome)
    modifies api
    ensures r.Fine? ==>
              var after := TaskResult(StoredUnder(old(api.objects), key), env, days);
              after.Some? && api.objects == old(api.objects)[key := after.value]
    ensures !r.Fine? ==> api.objects == old(api.objects)
    ensures Rotating(StoredUnder(old(api.objects), key), env, days).Panicked? ==> !r.Fine?
    ensures api.NeverFails() ==>
              (r.Fine? <==> TaskResult(StoredUnder(old(api.objects), key), env, days).Some?)
  {
    var s := new SecretCopy(map[], false, map[]);
    var labels: StringMap := map[];
    var loaded := api.Get(key);
    match loaded {
      case NotFound =>
      case Found(obj) =>
        s := new SecretCopy(obj.data, obj.data == map[], obj.annotations);
        labels := obj.labels;
      case ApiError =>
        return Failing;
    }
    r := RotateGRPCSecret(s, env, days);
    if !r.Fine? {
      return;
    }
    var failed := api.CreateOrUpdate(key, Object(labels, s.annotations, s.data));
    if failed {
      r := Failing;
    }
  }
}
