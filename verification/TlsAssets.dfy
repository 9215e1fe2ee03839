/** TLS validation of a Gateway and the certificate mounts of Istiod: the validator and
    the two separately written collectors name the same Secrets. */
module TlsAssets {
  import opened GatewayApi
  import opened ReferenceGrants
  import opened Names
  import opened CertSet

  /** Grant lists of the member cluster, Secrets of the infra namespace and the controller
      name of each GatewayClass. Absent: no grants, Secret or class not found. */
  datatype World = World(
    grants: map<string, Fetched<seq<ReferenceGrant>>>,
    secrets: map<string, Fetched<map<string, string>>>,
    classes: map<string, Fetched<string>>)
  {
    function GrantsIn(namespace: string): Fetched<seq<ReferenceGrant>> {
      if namespace in grants then grants[namespace] else Found([])
    }

    function Secret(name: string): Fetched<map<string, string>> {
      if name in secrets then secrets[name] else NotFound
    }

    function Class(name: string): Fetched<string> {
      if name in classes then classes[name] else NotFound
    }
  }

  /** `secretObjectReferenceName`. */
  function SecretName(ref: SecretRef): Option<string> {
    if ref.group.GetOr("") == "" && ref.kind.GetOr("Secret") == "Secret" then Some(ref.name) else None
  }

  /** `listenerCertificateRefs`; `None` when the listener requires no certificate. */
  function RequiredRefs(l: Listener): Option<seq<SecretRef>> {
    if l.protocol != HTTPS_PROTOCOL && l.protocol != TLS_PROTOCOL then None
    else if l.protocol == TLS_PROTOCOL && l.tls.None? then None
    else if l.tls.Some? && l.tls.value.mode == Some(TLS_PASSTHROUGH) then None
    else if l.tls.None? then Some([])
    else Some(l.tls.value.certificateRefs)
  }

  /** What validation has to check, in its order. */
  datatype Check =
    | NoRefs(listener: string)
    | ListenerCert(listener: string, ref: SecretRef)
    | ClientCert(ref: SecretRef)

  function RefChecks(listener: string, refs: seq<SecretRef>): seq<Check> {
    if refs == [] then [] else [ListenerCert(listener, refs[0])] + RefChecks(listener, refs[1..])
  }

  function ListenerChecks(l: Listener): seq<Check> {
    match RequiredRefs(l)
    case None => []
    case Some(refs) => if refs == [] then [NoRefs(l.name)] else RefChecks(l.name, refs)
  }

  function ListenersChecks(ls: seq<Listener>): seq<Check> {
    if ls == [] then [] else ListenerChecks(ls[0]) + ListenersChecks(ls[1..])
  }

  function ClientChecks(gw: Gateway): seq<Check> {
    if gw.clientCert.None? then [] else [ClientCert(gw.clientCert.value)]
  }

  function Checks(gw: Gateway): seq<Check> {
    ListenersChecks(gw.listeners) + ClientChecks(gw)
  }

  // ----- what is required, on the fields of the spec -----

  /** Only references to core Secrets have a name to look up. */
  lemma SecretNameMeans(ref: SecretRef)
    ensures SecretName(ref) ==
      if (ref.group == None || ref.group == Some("")) && (ref.kind == None || ref.kind == Some("Secret")) then
        Some(ref.name)
      else None
  {
  }

  /** The listener terminates TLS: HTTPS, or TLS with a tls section, and not passthrough. */
  predicate Terminates(l: Listener) {
    && (l.protocol == "HTTPS" || (l.protocol == "TLS" && l.tls.Some?))
    && (l.tls.Some? ==> l.tls.value.mode != Some("Passthrough"))
  }

  function RefsOf(l: Listener): seq<SecretRef> {
    if l.tls.None? then [] else l.tls.value.certificateRefs
  }

  lemma {:induction false} RefChecksAt(listener: string, refs: seq<SecretRef>)
    ensures |RefChecks(listener, refs)| == |refs|
    ensures forall i :: 0 <= i < |refs| ==> RefChecks(listener, refs)[i] == ListenerCert(listener, refs[i])
  {
    if refs != [] {
      RefChecksAt(listener, refs[1..]);
    }
  }

  /** What a listener has to have checked: nothing if it does not terminate TLS; otherwise
      each of its certificateRefs, in order, or the fact that there is none. */
  lemma ListenerChecksMean(l: Listener)
    ensures !Terminates(l) ==> ListenerChecks(l) == []
    ensures Terminates(l) && RefsOf(l) == [] ==> ListenerChecks(l) == [NoRefs(l.name)]
    ensures Terminates(l) && RefsOf(l) != [] ==>
      && |ListenerChecks(l)| == |RefsOf(l)|
      && forall i :: 0 <= i < |RefsOf(l)| ==> ListenerChecks(l)[i] == ListenerCert(l.name, RefsOf(l)[i])
  {
    RefChecksAt(l.name, RefsOf(l));
    assert |"HTTPS"| == 5 && |"TLS"| == 3;
  }

  lemma {:induction false} ListenersChecksHave(ls: seq<Listener>, l: Listener, c: Check)
    requires l in ls && c in ListenerChecks(l)
    ensures c in ListenersChecks(ls)
  {
    if ls[0] != l {
      ListenersChecksHave(ls[1..], l, c);
    }
  }

  /** A listener that terminates TLS without naming a certificate is always refused. */
  lemma MissingRefIsRefused(w: World, gw: Gateway, l: Listener)
    requires l in gw.listeners && Terminates(l) && RefsOf(l) == []
    ensures !Validated(w, gw)
  {
    ListenerChecksMean(l);
    assert NoRefs(l.name) in ListenerChecks(l);
    ListenersChecksHave(gw.listeners, l, NoRefs(l.name));
    assert NoRefs(l.name) in Checks(gw);
    NoFailureMeansAll(w, gw.key.namespace, Checks(gw));
  }

  /** A Gateway that terminates TLS nowhere and names no client certificate needs nothing. */
  lemma {:induction false} NothingRequired(ls: seq<Listener>)
    requires forall l :: l in ls ==> !Terminates(l)
    ensures ListenersChecks(ls) == []
  {
    if ls != [] {
      assert ls[0] in ls;
      ListenerChecksMean(ls[0]);
      NothingRequired(ls[1..]);
    }
  }

  /** Why a reference is refused: it is not to a core Secret, or no grant in the Secret's
      namespace admits the Gateway's, or the infra Secret lacks a key. */
  lemma RefProblemMeans(w: World, gatewayNamespace: string, ref: SecretRef)
    ensures RefProblem(w, gatewayNamespace, ref) ==
      if SecretName(ref) == None then Some("InvalidCertificateRef")
      else if !GrantedTo(w, gatewayNamespace, ref) then Some("RefNotPermitted")
      else if !HasKeys(w, ref.name) then Some("InvalidCertificateRef")
      else None
  {
    assert GrantFrom(GATEWAY_GROUP, "Gateway", gatewayNamespace) ==
           GrantFrom("gateway.networking.k8s.io", "Gateway", gatewayNamespace);
  }

  predicate GrantedTo(w: World, gatewayNamespace: string, ref: SecretRef) {
    var namespace := if ref.namespace.Some? then ref.namespace.value else gatewayNamespace;
    var grants := if namespace in w.grants then w.grants[namespace] else Found([]);
    var from := GrantFrom("gateway.networking.k8s.io", "Gateway", gatewayNamespace);
    namespace == gatewayNamespace || (grants.Found? && SomeSecretGrant(grants.value, from, ref.name))
  }

  predicate SomeSecretGrant(grants: seq<ReferenceGrant>, from: GrantFrom, secret: string) {
    exists i :: 0 <= i < |grants| && Grants(grants[i], from, "", "Secret", secret)
  }

  predicate RefPermitted(w: World, gatewayNamespace: string, ref: SecretRef) {
    var namespace := ref.namespace.GetOr(gatewayNamespace);
    var from := GrantFrom(GATEWAY_GROUP, "Gateway", gatewayNamespace);
    Permitted(w.GrantsIn(namespace), from, "", "Secret", namespace, ref.name)
  }

  predicate HasKeys(w: World, name: string) {
    var s := w.Secret(name);
    && s.Found? && "tls.crt" in s.value && s.value["tls.crt"] != ""
    && "tls.key" in s.value && s.value["tls.key"] != ""
  }

  const INVALID_CERT := "InvalidCertificateRef"
  const REF_NOT_PERMITTED := "RefNotPermitted"

  /** The reason a reference is refused, if it is. */
  function RefProblem(w: World, gatewayNamespace: string, ref: SecretRef): Option<string> {
    if SecretName(ref).None? then Some(INVALID_CERT)
    else if !RefPermitted(w, gatewayNamespace, ref) then Some(REF_NOT_PERMITTED)
    else if !HasKeys(w, ref.name) then Some(INVALID_CERT)
    else None
  }

  function Problem(w: World, gatewayNamespace: string, c: Check): Option<string> {
    match c
    case NoRefs(_) => Some(INVALID_CERT)
    case ListenerCert(_, ref) => RefProblem(w, gatewayNamespace, ref)
    case ClientCert(ref) => RefProblem(w, gatewayNamespace, ref)
  }

  datatype Failure = Failure(check: Check, reason: string)

  function FirstFailure(w: World, gatewayNamespace: string, cs: seq<Check>): Option<Failure> {
    if cs == [] then None
    else match Problem(w, gatewayNamespace, cs[0])
      case Some(reason) => Some(Failure(cs[0], reason))
      case None => FirstFailure(w, gatewayNamespace, cs[1..])
  }

  lemma {:induction false} FirstFailureConcat(w: World, ns: string, a: seq<Check>, b: seq<Check>)
    ensures FirstFailure(w, ns, a + b) ==
      if FirstFailure(w, ns, a).Some? then FirstFailure(w, ns, a) else FirstFailure(w, ns, b)
  {
    if a == [] {
      assert a + b == b;
    } else {
      assert (a + b)[1..] == a[1..] + b;
      FirstFailureConcat(w, ns, a[1..], b);
    }
  }

  lemma {:induction false} NoFailureMeansAll(w: World, ns: string, cs: seq<Check>)
    ensures FirstFailure(w, ns, cs) == None <==> forall i :: 0 <= i < |cs| ==> Problem(w, ns, cs[i]) == None
  {
    if cs != [] {
      NoFailureMeansAll(w, ns, cs[1..]);
      assert forall i :: 0 < i < |cs| ==> cs[i] == cs[1..][i - 1];
    }
  }

  method RequireInfraSecretKeys(w: World, name: string) returns (ok: bool)
    ensures ok <==> HasKeys(w, name)
  {
    var s := w.Secret(name);
    if !s.Found? {
      return false;
    }
    var keys := ["tls.crt", "tls.key"];
    for i := 0 to |keys|
      invariant forall k :: 0 <= k < i ==> keys[k] in s.value && s.value[keys[k]] != ""
    {
      if !(keys[i] in s.value && s.value[keys[i]] != "") {
        assert keys[0] == "tls.crt" && keys[1] == "tls.key";
        return false;
      }
    }
    assert keys[0] == "tls.crt" && keys[1] == "tls.key";
    ok := true;
  }

  method CheckRef(w: World, gatewayNamespace: string, ref: SecretRef) returns (problem: Option<string>)
    ensures problem == RefProblem(w, gatewayNamespace, ref)
  {
    if SecretName(ref).None? {
      return Some(INVALID_CERT);
    }
    var grants := w.GrantsIn(ref.namespace.GetOr(gatewayNamespace));
    var permitted := GatewaySecretReferencePermitted(grants, gatewayNamespace, ref);
    if !permitted {
      return Some(REF_NOT_PERMITTED);
    }
    var ok := RequireInfraSecretKeys(w, ref.name);
    problem := if ok then None else Some(INVALID_CERT);
  }

  method ValidateListener(w: World, gatewayNamespace: string, l: Listener) returns (failure: Option<Failure>)
    ensures failure == FirstFailure(w, gatewayNamespace, ListenerChecks(l))
  {
    var required := RequiredRefs(l);
    if required.None? {
      return None;
    }
    var refs := required.value;
    if |refs| == 0 {
      return Some(Failure(NoRefs(l.name), INVALID_CERT));
    }
    for i := 0 to |refs|
      invariant FirstFailure(w, gatewayNamespace, RefChecks(l.name, refs)) ==
                FirstFailure(w, gatewayNamespace, RefChecks(l.name, refs[i..]))
    {
      assert refs[i..][0] == refs[i] && refs[i..][1..] == refs[i + 1..];
      assert RefChecks(l.name, refs[i..])[1..] == RefChecks(l.name, refs[i + 1..]);
      var problem := CheckRef(w, gatewayNamespace, refs[i]);
      if problem.Some? {
        return Some(Failure(ListenerCert(l.name, refs[i]), problem.value));
      }
    }
    failure := None;
  }

  /** `validateGatewayTLSAssets`: it accepts exactly when every check passes, and otherwise
      reports the first that does not. */
  method ValidateGatewayTlsAssets(w: World, gw: Gateway) returns (failure: Option<Failure>)
    ensures failure == FirstFailure(w, gw.key.namespace, Checks(gw))
    ensures failure == None <==>
      forall i :: 0 <= i < |Checks(gw)| ==> Problem(w, gw.key.namespace, Checks(gw)[i]) == None
  {
    var ns := gw.key.namespace;
    NoFailureMeansAll(w, ns, Checks(gw));
    FirstFailureConcat(w, ns, ListenersChecks(gw.listeners), ClientChecks(gw));
    for i := 0 to |gw.listeners|
      invariant FirstFailure(w, ns, ListenersChecks(gw.listeners)) ==
        FirstFailure(w, ns, ListenersChecks(gw.listeners[i..]))
    {
      var l := gw.listeners[i];
      assert gw.listeners[i..][0] == l && gw.listeners[i..][1..] == gw.listeners[i + 1..];
      FirstFailureConcat(w, ns, ListenerChecks(l), ListenersChecks(gw.listeners[i + 1..]));
      failure := ValidateListener(w, ns, l);
      if failure.Some? {
        return;
      }
    }
    if gw.clientCert.Some? {
      var problem := CheckRef(w, ns, gw.clientCert.value);
      assert ClientChecks(gw)[1..] == [];
      assert FirstFailure(w, ns, ClientChecks(gw)[1..]) == None;
      if problem.Some? {
        return Some(Failure(ClientCert(gw.clientCert.value), problem.value));
      }
    }
    failure := None;
  }

  // ----- the collectors -----

  function RefNames(refs: seq<SecretRef>): seq<string> {
    if refs == [] then []
    else (if SecretName(refs[0]).Some? then [SecretName(refs[0]).value] else []) + RefNames(refs[1..])
  }

  /** `gatewayTLSCertNames`, with its own test of which listeners count. */
  function TlsCertNames(ls: seq<Listener>): seq<string> {
    if ls == [] then []
    else
      var l := ls[0];
      (if l.protocol != HTTPS_PROTOCOL && l.protocol != TLS_PROTOCOL then []
       else if l.tls.None? || l.tls.value.mode == Some(TLS_PASSTHROUGH) then []
       else RefNames(l.tls.value.certificateRefs)) + TlsCertNames(ls[1..])
  }

  /** `gatewayBackendTLSCertNames`. */
  function BackendCertNames(gw: Gateway): seq<string> {
    if gw.clientCert.None? then []
    else if SecretName(gw.clientCert.value).Some? then [SecretName(gw.clientCert.value).value]
    else []
  }

  function CollectedNames(gw: Gateway): seq<string> {
    TlsCertNames(gw.listeners) + BackendCertNames(gw)
  }

  /** The Secret name a check looks up. */
  function CheckedNames(cs: seq<Check>): seq<string> {
    if cs == [] then []
    else
      (if cs[0].NoRefs? || SecretName(cs[0].ref).None? then [] else [SecretName(cs[0].ref).value])
      + CheckedNames(cs[1..])
  }

  lemma {:induction false} CheckedConcat(a: seq<Check>, b: seq<Check>)
    ensures CheckedNames(a + b) == CheckedNames(a) + CheckedNames(b)
  {
    if a == [] {
      assert a + b == b;
    } else {
      assert (a + b)[1..] == a[1..] + b;
      CheckedConcat(a[1..], b);
    }
  }

  lemma {:induction false} CheckedRefs(listener: string, refs: seq<SecretRef>)
    ensures CheckedNames(RefChecks(listener, refs)) == RefNames(refs)
  {
    if refs != [] {
      CheckedRefs(listener, refs[1..]);
      assert RefChecks(listener, refs)[1..] == RefChecks(listener, refs[1..]);
    }
  }

  lemma {:induction false} CheckedListeners(ls: seq<Listener>)
    ensures CheckedNames(ListenersChecks(ls)) == TlsCertNames(ls)
  {
    if ls != [] {
      CheckedListeners(ls[1..]);
      CheckedConcat(ListenerChecks(ls[0]), ListenersChecks(ls[1..]));
      var l := ls[0];
      match RequiredRefs(l)
      case None =>
      case Some(refs) =>
        CheckedRefs(l.name, refs);
        if refs == [] {
          assert ListenerChecks(l)[1..] == [];
          assert CheckedNames(ListenerChecks(l)[1..]) == [];
        }
    }
  }

  /** Validation and the collectors name the same Secrets, in the same order, for every
      Gateway, valid or not. */
  lemma CheckedAreCollected(gw: Gateway)
    ensures CheckedNames(Checks(gw)) == CollectedNames(gw)
  {
    CheckedListeners(gw.listeners);
    CheckedConcat(ListenersChecks(gw.listeners), ClientChecks(gw));
    if gw.clientCert.Some? {
      assert ClientChecks(gw)[1..] == [];
      assert CheckedNames(ClientChecks(gw)[1..]) == [];
    }
  }

  // ----- RefreshIstiod -----

  /** `isOurs`; `None` is a failed lookup. */
  function IsOurs(w: World, gw: Gateway): Option<bool> {
    match w.Class(gw.className)
    case NotFound => Some(false)
    case Failed => None
    case Found(controller) => Some(controller == CONTROLLER_NAME)
  }

  datatype Refresh = NoRefresh | RefreshError | Applied(pod: IstiodPod)

  /** The certificate names of every Gateway of ours among `gws`. */
  function UnionNames(w: World, gws: seq<Gateway>): seq<string> {
    if gws == [] then []
    else (if IsOurs(w, gws[0]) == Some(true) then CollectedNames(gws[0]) else []) + UnionNames(w, gws[1..])
  }

  lemma {:induction false} UnionAppend(w: World, gws: seq<Gateway>, gw: Gateway)
    ensures UnionNames(w, gws + [gw]) ==
      UnionNames(w, gws) + if IsOurs(w, gw) == Some(true) then CollectedNames(gw) else []
  {
    if gws == [] {
      assert gws + [gw] == [gw] && [gw][1..] == [];
      assert UnionNames(w, [gw][1..]) == [];
    } else {
      assert (gws + [gw])[1..] == gws[1..] + [gw];
      UnionAppend(w, gws[1..], gw);
    }
  }

  predicate ClassLookupFails(w: World, gws: seq<Gateway>) {
    exists i :: 0 <= i < |gws| && IsOurs(w, gws[i]) == None
  }

  /** The loop of `RefreshIstiod` over the listed Gateways; `None` is its error return. */
  method CollectCerts(w: World, gws: seq<Gateway>) returns (collected: Option<seq<string>>)
    ensures collected == if ClassLookupFails(w, gws) then None else Some(UnionNames(w, gws))
  {
    var certs: seq<string> := [];
    for i := 0 to |gws|
      invariant certs == UnionNames(w, gws[..i])
      invariant forall k :: 0 <= k < i ==> IsOurs(w, gws[k]) != None
    {
      assert gws[..i + 1] == gws[..i] + [gws[i]];
      UnionAppend(w, gws[..i], gws[i]);
      var ours := IsOurs(w, gws[i]);
      if ours.None? {
        return None;
      }
      if !ours.value {
        continue;
      }
      certs := certs + TlsCertNames(gws[i].listeners);
      certs := certs + BackendCertNames(gws[i]);
    }
    assert gws[..|gws|] == gws;
    collected := Some(certs);
  }

  method RefreshIstiod(sha: Digest, lower: char -> char, w: World, kubeconfig: string, gws: seq<Gateway>,
                       caNames: seq<string>) returns (r: Refresh)
    ensures r == NoRefresh <==> kubeconfig == ""
    ensures r == RefreshError <==> kubeconfig != "" && ClassLookupFails(w, gws)
    ensures r.Applied? ==> IsRendering(sha, lower, kubeconfig, UnionNames(w, gws) + caNames, r.pod)
  {
    if kubeconfig == "" {
      return NoRefresh;
    }
    var certs := CollectCerts(w, gws);
    if certs.None? {
      return RefreshError;
    }
    var pod := RenderIstiod(sha, lower, kubeconfig, certs.value + caNames);
    r := Applied(pod);
  }

  lemma {:induction false} UnionHas(w: World, gws: seq<Gateway>, n: string)
    ensures n in UnionNames(w, gws) <==>
      exists i :: 0 <= i < |gws| && IsOurs(w, gws[i]) == Some(true) && n in CollectedNames(gws[i])
  {
    if gws != [] {
      UnionHas(w, gws[1..], n);
      assert forall i :: 0 < i < |gws| ==> gws[i] == gws[1..][i - 1];
      if exists i :: 0 <= i < |gws[1..]| && IsOurs(w, gws[1..][i]) == Some(true) && n in CollectedNames(gws[1..][i]) {
        var i :| 0 <= i < |gws[1..]| && IsOurs(w, gws[1..][i]) == Some(true) && n in CollectedNames(gws[1..][i]);
        assert gws[i + 1] == gws[1..][i];
      }
    }
  }

  predicate Validated(w: World, gw: Gateway) {
    FirstFailure(w, gw.key.namespace, Checks(gw)) == None
  }

  /** A check of this Gateway that names a core Secret which is permitted for the Gateway's
      namespace and has both keys. */
  predicate GoodCheck(w: World, gw: Gateway, c: Check) {
    && c in Checks(gw) && !c.NoRefs? && SecretName(c.ref) == Some(c.ref.name)
    && RefPermitted(w, gw.key.namespace, c.ref) && HasKeys(w, c.ref.name)
  }

  /** A Gateway validates exactly when each of its own references is good. */
  lemma ValidatedIff(w: World, gw: Gateway)
    ensures Validated(w, gw) <==> forall c :: c in Checks(gw) ==> GoodCheck(w, gw, c)
  {
    var cs := Checks(gw);
    NoFailureMeansAll(w, gw.key.namespace, cs);
    if forall c :: c in cs ==> GoodCheck(w, gw, c) {
      forall i | 0 <= i < |cs| ensures Problem(w, gw.key.namespace, cs[i]) == None {
        assert GoodCheck(w, gw, cs[i]);
      }
    }
  }

  /** The check looks up the Secret `n`. */
  predicate LooksUp(c: Check, n: string) {
    !c.NoRefs? && SecretName(c.ref) == Some(n)
  }

  lemma {:induction false} CheckedBySome(cs: seq<Check>, n: string)
    ensures n in CheckedNames(cs) <==> exists c :: c in cs && LooksUp(c, n)
  {
    if cs != [] {
      CheckedBySome(cs[1..], n);
      assert cs[0] in cs;
      assert forall c :: c in cs <==> c == cs[0] || c in cs[1..];
    }
  }

  /** Every collected name comes from a reference of the Gateway itself that is permitted
      and whose Secret has both keys, and every reference of it is such a one. */
  lemma ValidatedHasKeys(w: World, gw: Gateway, n: string)
    requires Validated(w, gw)
    ensures forall c :: c in Checks(gw) ==> GoodCheck(w, gw, c)
    ensures n in CollectedNames(gw) <==> exists c :: GoodCheck(w, gw, c) && c.ref.name == n
  {
    ValidatedIff(w, gw);
    CheckedAreCollected(gw);
    CheckedBySome(Checks(gw), n);
    if n in CollectedNames(gw) {
      var c :| c in Checks(gw) && LooksUp(c, n);
      assert GoodCheck(w, gw, c) && c.ref.name == n;
    }
    if exists c :: GoodCheck(w, gw, c) && c.ref.name == n {
      var c :| GoodCheck(w, gw, c) && c.ref.name == n;
      assert LooksUp(c, n);
    }
  }

  /** Validation and mounting agree. If a Gateway of ours validates and Istiod is refreshed
      over a list that has it, every check of it names a Secret that is permitted for it,
      has both keys and is mounted at its own path. */
  lemma ValidatedAreMounted(sha: Digest, lower: char -> char, w: World, kubeconfig: string, gws: seq<Gateway>,
                            caNames: seq<string>, pod: IstiodPod, gw: Gateway, c: Check)
    requires "" !in w.secrets && gw in gws && IsOurs(w, gw) == Some(true) && Validated(w, gw) && c in Checks(gw)
    ensures GoodCheck(w, gw, c)
    ensures IsRendering(sha, lower, kubeconfig, UnionNames(w, gws) + caNames, pod) ==>
      exists i :: MountedAt(pod, i, c.ref.name)
  {
    ValidatedIff(w, gw);
    var n := c.ref.name;
    ValidatedHasKeys(w, gw, n);
    UnionHas(w, gws, n);
    if IsRendering(sha, lower, kubeconfig, UnionNames(w, gws) + caNames, pod) {
      EveryCertIsMounted(sha, lower, kubeconfig, UnionNames(w, gws) + caNames, pod, n);
    }
  }

  lemma SameUnion(w: World, a: seq<Gateway>, b: seq<Gateway>, n: string)
    requires forall gw :: gw in a ==> gw in b
    ensures n in UnionNames(w, a) ==> n in UnionNames(w, b)
  {
    UnionHas(w, a, n);
    UnionHas(w, b, n);
    if n in UnionNames(w, a) {
      var i :| 0 <= i < |a| && IsOurs(w, a[i]) == Some(true) && n in CollectedNames(a[i]);
      assert a[i] in b;
    }
  }

  /** Listing the same Gateways and CA names in any order, with any repetition, renders the
      identical pod template. */
  lemma RefreshDependsOnSets(sha: Digest, lower: char -> char, w: World, kubeconfig: string, a: seq<Gateway>,
                             b: seq<Gateway>, ca: seq<string>, cb: seq<string>, p: IstiodPod, q: IstiodPod)
    requires (forall gw :: gw in a <==> gw in b) && (forall n :: n in ca <==> n in cb)
    requires IsRendering(sha, lower, kubeconfig, UnionNames(w, a) + ca, p)
    requires IsRendering(sha, lower, kubeconfig, UnionNames(w, b) + cb, q)
    ensures p == q
  {
    forall n ensures n in UnionNames(w, a) + ca <==> n in UnionNames(w, b) + cb {
      SameUnion(w, a, b, n);
      SameUnion(w, b, a, n);
    }
    RenderingDependsOnSet(sha, lower, kubeconfig, UnionNames(w, a) + ca, UnionNames(w, b) + cb, p, q);
  }

  /** And nothing else is: a mounted certificate is named by a listed Gateway of ours or by
      a CA reference, so mounts of deleted Gateways go away. */
  lemma NothingElseIsMounted(sha: Digest, lower: char -> char, w: World, kubeconfig: string, gws: seq<Gateway>,
                             caNames: seq<string>, pod: IstiodPod, i: nat)
    requires IsRendering(sha, lower, kubeconfig, UnionNames(w, gws) + caNames, pod) && 2 <= i < |pod.volumes|
    ensures var n := pod.volumes[i].secretName;
      n in caNames || exists k :: 0 <= k < |gws| && IsOurs(w, gws[k]) == Some(true) && n in CollectedNames(gws[k])
  {
    var names := UnionNames(w, gws) + caNames;
    var certs :| IsSortedSet(certs, names) && pod == PodFor(sha, lower, kubeconfig, certs);
    assert pod.volumes[i].secretName == certs[i - 2];
    assert certs[i - 2] in certs;
    UnionHas(w, gws, certs[i - 2]);
  }
}
