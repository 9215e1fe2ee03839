/** Whether a route may attach to a Gateway and whether its backends resolve, on a
    snapshot of the member cluster. */
module RouteAcceptance {
  import opened GatewayApi
  import opened Hostnames
  import opened ReferenceGrants
  import GatewayStatuses

  type Labels = map<string, string>

  /** Reads against the member cluster. An absent key is not found (no grants, for the
      grant list); `compiles` and `selects` stand for the label-selector library. */
  datatype Snapshot = Snapshot(
    namespaces: map<string, Fetched<Labels>>,
    services: map<NamespacedName, Fetched<seq<int>>>,
    grants: map<string, Fetched<seq<ReferenceGrant>>>,
    compiles: LabelSelector -> bool,
    selects: (LabelSelector, Labels) -> bool)
  {
    function Namespace(name: string): Fetched<Labels> {
      if name in namespaces then namespaces[name] else NotFound
    }

    function ServicePorts(key: NamespacedName): Fetched<seq<int>> {
      if key in services then services[key] else NotFound
    }

    function GrantsIn(namespace: string): Fetched<seq<ReferenceGrant>> {
      if namespace in grants then grants[namespace] else Found([])
    }
  }

  datatype RouteKind = HTTPRoute | GRPCRoute | TLSRoute {
    function Name(): string {
      match this
      case HTTPRoute => "HTTPRoute"
      case GRPCRoute => "GRPCRoute"
      case TLSRoute => "TLSRoute"
    }
  }

  /** What is asked of each listener. */
  datatype Query = Query(
    parentRef: ParentRef,
    routeNamespace: string,
    hostnames: seq<string>,
    gatewayNamespace: string,
    kind: RouteKind)

  datatype Answer = Yes | No | Error

  datatype Verdict = Verdict(status: ConditionStatus, reason: string, message: string)

  predicate SupportsKind(protocol: string, kind: RouteKind) {
    match kind
    case TLSRoute => protocol == TLS_PROTOCOL
    case _ => protocol == HTTP_PROTOCOL || protocol == HTTPS_PROTOCOL
  }

  /** Section name, port and protocol fit. */
  predicate Selected(l: Listener, q: Query) {
    && (q.parentRef.sectionName.Some? ==> q.parentRef.sectionName.value == l.name)
    && (q.parentRef.port.Some? ==> q.parentRef.port.value == l.port)
    && SupportsKind(l.protocol, q.kind)
  }

  predicate KindsInclude(kinds: seq<RouteGroupKind>, kind: RouteKind) {
    exists i :: 0 <= i < |kinds| && kinds[i].group.GetOr(GATEWAY_GROUP) == GATEWAY_GROUP && kinds[i].kind == kind.Name()
  }

  function ListenerAllows(w: Snapshot, l: Listener, q: Query): Answer {
    var allowed := l.allowedRoutes;
    if allowed.Some? && |allowed.value.kinds| > 0 && !KindsInclude(allowed.value.kinds, q.kind) then No
    else if allowed.None? || allowed.value.namespaces.None? || allowed.value.namespaces.value.from.None? then
      SameNamespace(q)
    else
      var ns := allowed.value.namespaces.value;
      if ns.from.value == "All" then Yes
      else if ns.from.value == "Same" then SameNamespace(q)
      else if ns.from.value == "Selector" then
        if ns.selector.None? then No
        else if !w.compiles(ns.selector.value) then Error
        else match w.Namespace(q.routeNamespace)
          case NotFound => No
          case Failed => Error
          case Found(labels) => if w.selects(ns.selector.value, labels) then Yes else No
      else No
  }

  function SameNamespace(q: Query): Answer {
    if q.routeNamespace == q.gatewayNamespace then Yes else No
  }

  predicate HostnameFits(l: Listener, q: Query) {
    RouteHostnamesIntersect(l.hostname, q.hostnames)
  }

  /** The listener's say once section, port, protocol and hostname fit. */
  predicate Says(w: Snapshot, l: Listener, q: Query, a: Answer) {
    Selected(l, q) && HostnameFits(l, q) && ListenerAllows(w, l, q) == a
  }

  const ACCEPTED_VERDICT := Verdict(ConditionTrue, "Accepted", "Accepted")
  const NO_PARENT_VERDICT := Verdict(ConditionFalse, "NoMatchingParent", "No matching listener for parentRef")
  const NO_HOSTNAME_VERDICT :=
    Verdict(ConditionFalse, "NoMatchingListenerHostname", "Route hostnames do not intersect listener hostname")
  const NOT_ALLOWED_VERDICT :=
    Verdict(ConditionFalse, "NotAllowedByListeners", "Route is not allowed by listener allowedRoutes")

  // ----- what the tests on one listener mean -----

  function KindName(kind: RouteKind): string {
    match kind
    case HTTPRoute => "HTTPRoute"
    case GRPCRoute => "GRPCRoute"
    case TLSRoute => "TLSRoute"
  }

  /** Section name, port and protocol, on the listener's and the reference's own fields. */
  lemma SelectedMeans(l: Listener, q: Query)
    ensures Selected(l, q) <==>
      && (q.parentRef.sectionName == None || q.parentRef.sectionName == Some(l.name))
      && (q.parentRef.port == None || q.parentRef.port == Some(l.port))
      && (if q.kind == TLSRoute then l.protocol == "TLS" else l.protocol == "HTTP" || l.protocol == "HTTPS")
  {
  }

  /** A listener's status advertises exactly the route kinds that can be accepted on it. */
  lemma AdvertisedIffSupported(ls: ListenerStatus, protocol: string, kind: RouteKind)
    requires GatewayStatuses.Advertises(ls, protocol)
    ensures RouteGroupKind(None, KindName(kind)) in ls.supportedKinds <==> SupportsKind(protocol, kind)
  {
    assert "HTTPRoute"[0] != "GRPCRoute"[0] && "HTTPRoute"[0] != "TLSRoute"[0] && "GRPCRoute"[0] != "TLSRoute"[0];
  }

  /** The kinds list names the route's kind, in the Gateway API group. */
  predicate ListsKind(kinds: seq<RouteGroupKind>, kind: RouteKind) {
    exists i :: 0 <= i < |kinds| && kinds[i].kind == KindName(kind) &&
      (kinds[i].group == None || kinds[i].group == Some("gateway.networking.k8s.io"))
  }

  /** What the namespaces part of `allowedRoutes` answers for a route of a permitted kind. */
  ghost predicate AnswersFor(w: Snapshot, ns: Option<RouteNamespaces>, q: Query, a: Answer) {
    if ns == None || ns.value.from == None || ns.value.from == Some("Same") then
      a == if q.routeNamespace == q.gatewayNamespace then Yes else No
    else if ns.value.from == Some("All") then a == Yes
    else if ns.value.from == Some("Selector") && ns.value.selector.Some? then
      && (a == Error <==> !w.compiles(ns.value.selector.value) || FetchFails(w, q.routeNamespace))
      && (a == Yes <==> w.compiles(ns.value.selector.value) && Matched(w, ns.value.selector.value, q.routeNamespace))
    else a == No
  }

  predicate FetchFails(w: Snapshot, namespace: string) {
    namespace in w.namespaces && w.namespaces[namespace].Failed?
  }

  predicate Matched(w: Snapshot, selector: LabelSelector, namespace: string) {
    && namespace in w.namespaces && w.namespaces[namespace].Found?
    && w.selects(selector, w.namespaces[namespace].value)
  }

  lemma KindsIncludeMeans(kinds: seq<RouteGroupKind>, kind: RouteKind)
    ensures KindsInclude(kinds, kind) <==> ListsKind(kinds, kind)
  {
    if KindsInclude(kinds, kind) {
      var i :| 0 <= i < |kinds| && kinds[i].group.GetOr(GATEWAY_GROUP) == GATEWAY_GROUP && kinds[i].kind == kind.Name();
      assert kinds[i].kind == KindName(kind);
      assert kinds[i].group == None || kinds[i].group == Some("gateway.networking.k8s.io");
    }
    if ListsKind(kinds, kind) {
      var i :| 0 <= i < |kinds| && kinds[i].kind == KindName(kind) &&
        (kinds[i].group == None || kinds[i].group == Some("gateway.networking.k8s.io"));
      assert kinds[i].group.GetOr(GATEWAY_GROUP) == GATEWAY_GROUP && kinds[i].kind == kind.Name();
    }
  }

  /** `allowedRoutes`, read on its own fields: a non-empty kinds list must name the kind; then
      All admits every namespace, Same or nothing the Gateway's own, a selector the found
      namespaces it matches, and anything else none. */
  lemma ListenerAllowsMeans(w: Snapshot, l: Listener, q: Query)
    ensures match l.allowedRoutes
      case None => AnswersFor(w, None, q, ListenerAllows(w, l, q))
      case Some(allowed) =>
        if allowed.kinds != [] && !ListsKind(allowed.kinds, q.kind) then ListenerAllows(w, l, q) == No
        else AnswersFor(w, allowed.namespaces, q, ListenerAllows(w, l, q))
  {
    if l.allowedRoutes.Some? {
      KindsIncludeMeans(l.allowedRoutes.value.kinds, q.kind);
    }
    assert |"All"| == 3 && |"Same"| == 4 && |"Selector"| == 8;
  }

  /** The promised verdict, by what some listener satisfies and in no order. */
  function PromisedVerdict(w: Snapshot, listeners: seq<Listener>, q: Query): Verdict {
    if exists l :: l in listeners && Says(w, l, q, Yes) then ACCEPTED_VERDICT
    else if !HasMatchingListener(listeners, q) then NO_PARENT_VERDICT
    else if exists l :: l in listeners && Selected(l, q) && !HostnameFits(l, q) then NO_HOSTNAME_VERDICT
    else NOT_ALLOWED_VERDICT
  }

  /** `gatewayHasMatchingListener`. */
  predicate HasMatchingListener(listeners: seq<Listener>, q: Query) {
    exists l :: l in listeners && Selected(l, q)
  }

  predicate NoLookupError(w: Snapshot, listeners: seq<Listener>, q: Query) {
    forall l :: l in listeners ==> !Says(w, l, q, Error)
  }

  /** The answer of the first listener that accepts the route or fails to answer. */
  function FirstDecisive(w: Snapshot, listeners: seq<Listener>, q: Query): Answer {
    if listeners == [] then No
    else if Says(w, listeners[0], q, Yes) then Yes
    else if Says(w, listeners[0], q, Error) then Error
    else FirstDecisive(w, listeners[1..], q)
  }

  /** The result with lookup errors accounted for; `None` is the error. */
  function Attachment(w: Snapshot, listeners: seq<Listener>, q: Query): Option<Verdict> {
    match FirstDecisive(w, listeners, q)
    case Error => None
    case Yes => Some(ACCEPTED_VERDICT)
    case No => Some(PromisedVerdict(w, listeners, q))
  }

  /** The listener at `k` is the first to answer yes or to fail, and this is its answer. */
  predicate DecidedAt(w: Snapshot, listeners: seq<Listener>, q: Query, k: int, a: Answer) {
    && 0 <= k < |listeners| && Says(w, listeners[k], q, a)
    && forall m :: 0 <= m < k ==> !Says(w, listeners[m], q, Yes) && !Says(w, listeners[m], q, Error)
  }

  lemma DecidedShift(w: Snapshot, listeners: seq<Listener>, q: Query, k: int, a: Answer)
    requires listeners != [] && !Says(w, listeners[0], q, Yes) && !Says(w, listeners[0], q, Error) && k > 0
    ensures DecidedAt(w, listeners[1..], q, k - 1, a) <==> DecidedAt(w, listeners, q, k, a)
  {
    if DecidedAt(w, listeners[1..], q, k - 1, a) {
      forall m | 0 <= m < k ensures !Says(w, listeners[m], q, Yes) && !Says(w, listeners[m], q, Error) {
        if m > 0 { assert listeners[m] == listeners[1..][m - 1]; }
      }
    }
  }

  lemma {:induction false} FirstDecisiveIs(w: Snapshot, listeners: seq<Listener>, q: Query, a: Answer)
    requires a == Yes || a == Error
    ensures FirstDecisive(w, listeners, q) == a <==> exists k :: DecidedAt(w, listeners, q, k, a)
  {
    if listeners != [] {
      if Says(w, listeners[0], q, Yes) || Says(w, listeners[0], q, Error) {
        assert Says(w, listeners[0], q, a) ==> DecidedAt(w, listeners, q, 0, a);
      } else {
        FirstDecisiveIs(w, listeners[1..], q, a);
        forall k | k > 0
          ensures DecidedAt(w, listeners[1..], q, k - 1, a) <==> DecidedAt(w, listeners, q, k, a)
        {
          DecidedShift(w, listeners, q, k, a);
        }
        if exists k :: DecidedAt(w, listeners[1..], q, k, a) {
          var k :| DecidedAt(w, listeners[1..], q, k, a);
          assert DecidedAt(w, listeners, q, k + 1, a);
        }
      }
    }
  }

  lemma {:induction false} NoneDecisive(w: Snapshot, listeners: seq<Listener>, q: Query)
    ensures FirstDecisive(w, listeners, q) == No <==>
      forall l :: l in listeners ==> !Says(w, l, q, Yes) && !Says(w, l, q, Error)
  {
    if listeners != [] {
      assert listeners[0] in listeners;
      NoneDecisive(w, listeners[1..], q);
      assert forall l :: l in listeners <==> l == listeners[0] || l in listeners[1..];
    }
  }

  predicate HasReason(r: Option<Verdict>, reason: string) {
    r.Some? && r.value.status == ConditionFalse && r.value.reason == reason
  }

  /** Each outcome, the error included, holds exactly under its own condition on the
      listeners. */
  ghost predicate OutcomeIsExact(w: Snapshot, listeners: seq<Listener>, q: Query, r: Option<Verdict>) {
    && (r == None <==> exists k :: DecidedAt(w, listeners, q, k, Error))
    && (r.Some? && r.value.status == ConditionTrue && r.value.reason == "Accepted" <==>
          exists k :: DecidedAt(w, listeners, q, k, Yes))
    && (HasReason(r, "NoMatchingParent") <==> !HasMatchingListener(listeners, q))
    && (HasReason(r, "NoMatchingListenerHostname") <==>
          (forall l :: l in listeners ==> !Says(w, l, q, Yes) && !Says(w, l, q, Error))
          && exists l :: l in listeners && Selected(l, q) && !HostnameFits(l, q))
    && (HasReason(r, "NotAllowedByListeners") <==>
          HasMatchingListener(listeners, q) && forall l :: l in listeners && Selected(l, q) ==> Says(w, l, q, No))
    && (r.Some? && r.value.status == ConditionTrue ==> r.value.reason == "Accepted")
    && (r.Some? && r.value.status != ConditionTrue ==> r.value.status == ConditionFalse)
  }

  lemma ReasonsDiffer()
    ensures NO_PARENT_VERDICT.reason != NO_HOSTNAME_VERDICT.reason
    ensures NOT_ALLOWED_VERDICT.reason != NO_HOSTNAME_VERDICT.reason
    ensures NOT_ALLOWED_VERDICT.reason != NO_PARENT_VERDICT.reason
  {
    assert "NoMatchingParent"[10] != "NoMatchingListenerHostname"[10];
    assert "NotAllowedByListeners"[2] != "NoMatchingListenerHostname"[2];
    assert "NotAllowedByListeners"[2] != "NoMatchingParent"[2];
  }

  lemma AttachmentIsExact(w: Snapshot, listeners: seq<Listener>, q: Query)
    ensures OutcomeIsExact(w, listeners, q, Attachment(w, listeners, q))
  {
    FirstDecisiveIs(w, listeners, q, Yes);
    FirstDecisiveIs(w, listeners, q, Error);
    NoneDecisive(w, listeners, q);
    ReasonsDiffer();
  }

  /** The loop of `routeAcceptedByGateway` with its two flags. `None` is the error return.
      The result is exact with or without lookup errors. */
  method RouteAcceptedByGateway(w: Snapshot, listeners: seq<Listener>, q: Query) returns (r: Option<Verdict>)
    ensures r == Attachment(w, listeners, q)
    ensures OutcomeIsExact(w, listeners, q, r)
    ensures NoLookupError(w, listeners, q) ==> r == Some(PromisedVerdict(w, listeners, q))
  {
    AttachmentIsExact(w, listeners, q);
    if NoLookupError(w, listeners, q) {
      NoErrorsNoNone(w, listeners, q);
    }
    r := ListenerLoop(w, listeners, q);
  }

  /** The loop itself. */
  method ListenerLoop(w: Snapshot, listeners: seq<Listener>, q: Query) returns (r: Option<Verdict>)
    ensures r == Attachment(w, listeners, q)
  {
    var matchedListener := false;
    var hostnameMismatch := false;
    for i := 0 to |listeners|
      invariant FirstDecisive(w, listeners, q) == FirstDecisive(w, listeners[i..], q)
      invariant matchedListener <==> exists k :: 0 <= k < i && Selected(listeners[k], q)
      invariant hostnameMismatch <==>
        exists k :: 0 <= k < i && Selected(listeners[k], q) && !HostnameFits(listeners[k], q)
      invariant forall k :: 0 <= k < i ==> !Says(w, listeners[k], q, Yes) && !Says(w, listeners[k], q, Error)
    {
      var l := listeners[i];
      assert listeners[i..][0] == l && listeners[i..][1..] == listeners[i + 1..];
      if q.parentRef.sectionName.Some? && q.parentRef.sectionName.value != l.name {
        continue;
      }
      if q.parentRef.port.Some? && q.parentRef.port.value != l.port {
        continue;
      }
      if !SupportsKind(l.protocol, q.kind) {
        continue;
      }
      matchedListener := true;
      if !RouteHostnamesIntersect(l.hostname, q.hostnames) {
        hostnameMismatch := true;
        continue;
      }
      var allowed := ListenerAllows(w, l, q);
      if allowed == Error {
        return None;
      }
      if allowed == Yes {
        return Some(ACCEPTED_VERDICT);
      }
    }
    if !matchedListener {
      return Some(NO_PARENT_VERDICT);
    }
    if hostnameMismatch {
      return Some(NO_HOSTNAME_VERDICT);
    }
    r := Some(NOT_ALLOWED_VERDICT);
  }

  /** The verdict does not depend on the order of the listeners. */
  lemma VerdictIsOrderFree(w: Snapshot, a: seq<Listener>, b: seq<Listener>, q: Query)
    requires multiset(a) == multiset(b)
    ensures PromisedVerdict(w, a, q) == PromisedVerdict(w, b, q)
    ensures NoLookupError(w, a, q) <==> NoLookupError(w, b, q)
  {
    assert forall l :: l in a <==> l in multiset(a);
    assert forall l :: l in b <==> l in multiset(b);
  }

  predicate ValidHostnames(listeners: seq<Listener>, q: Query) {
    && (forall l :: l in listeners && l.hostname.Some? ==> ValidPattern(l.hostname.value))
    && forall i :: 0 <= i < |q.hostnames| ==> ValidPattern(q.hostnames[i])
  }

  ghost predicate Attaches(w: Snapshot, l: Listener, q: Query, h: string) {
    Selected(l, q) && ListenerAllows(w, l, q) == Yes && ServedByBoth(l.hostname, q.hostnames, h)
  }

  /** A route is accepted exactly when some listener that selects and allows it shares a
      concrete hostname with it. */
  lemma AcceptedIffServed(w: Snapshot, listeners: seq<Listener>, q: Query)
    requires ValidHostnames(listeners, q)
    ensures PromisedVerdict(w, listeners, q) == ACCEPTED_VERDICT <==>
      exists l, h :: l in listeners && Attaches(w, l, q, h)
  {
    if exists l :: l in listeners && Says(w, l, q, Yes) {
      var l :| l in listeners && Says(w, l, q, Yes);
      RouteIntersectionIsExact(l.hostname, q.hostnames);
      var h :| ServedByBoth(l.hostname, q.hostnames, h);
      assert Attaches(w, l, q, h);
    }
    if exists l, h :: l in listeners && Attaches(w, l, q, h) {
      var l, h :| l in listeners && Attaches(w, l, q, h);
      RouteIntersectionIsExact(l.hostname, q.hostnames);
      assert Says(w, l, q, Yes);
    }
  }

  lemma {:induction false} NoErrorsNoNone(w: Snapshot, listeners: seq<Listener>, q: Query)
    requires NoLookupError(w, listeners, q)
    ensures FirstDecisive(w, listeners, q) != Error
    ensures FirstDecisive(w, listeners, q) == Yes <==> exists l :: l in listeners && Says(w, l, q, Yes)
    ensures Attachment(w, listeners, q) == Some(PromisedVerdict(w, listeners, q))
  {
    if listeners != [] {
      assert listeners[0] in listeners;
      NoErrorsNoNone(w, listeners[1..], q);
      if exists l :: l in listeners && Says(w, l, q, Yes) {
        var l :| l in listeners && Says(w, l, q, Yes);
        if l != listeners[0] {
          assert l in listeners[1..];
        }
      }
    }
  }

  lemma {:induction false} ErrorsWithoutYes(w: Snapshot, listeners: seq<Listener>, q: Query)
    requires !NoLookupError(w, listeners, q) && forall l :: l in listeners ==> !Says(w, l, q, Yes)
    ensures FirstDecisive(w, listeners, q) == Error
  {
    assert listeners[0] in listeners;
    if !Says(w, listeners[0], q, Error) {
      var l :| l in listeners && Says(w, l, q, Error);
      assert l in listeners[1..];
      ErrorsWithoutYes(w, listeners[1..], q);
    }
  }

  ghost predicate OrderFree(w: Snapshot, a: seq<Listener>, q: Query) {
    forall b: seq<Listener> :: multiset(b) == multiset(a) ==> Attachment(w, b, q) == Attachment(w, a, q)
  }

  /** The permutation with one listener moved to the front. */
  function Foremost(a: seq<Listener>, k: nat): (b: seq<Listener>)
    requires k < |a|
    ensures b != [] && b[0] == a[k] && multiset(b) == multiset(a)
  {
    assert a == a[..k] + [a[k]] + a[k + 1..];
    [a[k]] + a[..k] + a[k + 1..]
  }

  /** Exactly when the outcome, error included, is the same for every order of the
      listeners: unless one listener accepts the route while another cannot answer. */
  lemma OrderFreeIff(w: Snapshot, a: seq<Listener>, q: Query)
    ensures OrderFree(w, a, q) <==> NoLookupError(w, a, q) || forall l :: l in a ==> !Says(w, l, q, Yes)
  {
    if NoLookupError(w, a, q) {
      forall b: seq<Listener> | multiset(b) == multiset(a) ensures Attachment(w, b, q) == Attachment(w, a, q) {
        VerdictIsOrderFree(w, a, b, q);
        NoErrorsNoNone(w, a, q);
        NoErrorsNoNone(w, b, q);
      }
    } else if forall l :: l in a ==> !Says(w, l, q, Yes) {
      forall b: seq<Listener> | multiset(b) == multiset(a) ensures Attachment(w, b, q) == Attachment(w, a, q) {
        VerdictIsOrderFree(w, a, b, q);
        assert forall l :: l in b ==> l in multiset(a);
        ErrorsWithoutYes(w, a, q);
        ErrorsWithoutYes(w, b, q);
      }
    } else {
      var i :| 0 <= i < |a| && Says(w, a[i], q, Yes);
      var j :| 0 <= j < |a| && Says(w, a[j], q, Error);
      assert Attachment(w, Foremost(a, i), q).Some? && Attachment(w, Foremost(a, j), q).None?;
    }
  }

  /** Without the no-error hypothesis order does matter: a listener whose namespace lookup
      fails hides an accepting one behind it, and not one in front of it. */
  lemma OrderMattersWithErrors()
    returns (w: Snapshot, a: seq<Listener>, b: seq<Listener>, q: Query)
    ensures multiset(a) == multiset(b)
    ensures FirstDecisive(w, a, q) == Error && FirstDecisive(w, b, q) == Yes
  {
    var selector := LabelSelector(map[], []);
    var broken := Listener("broken", None, 80, HTTP_PROTOCOL, None,
      Some(AllowedRoutes(Some(RouteNamespaces(Some("Selector"), Some(selector))), [])));
    var open := Listener("open", None, 80, HTTP_PROTOCOL, None,
      Some(AllowedRoutes(Some(RouteNamespaces(Some("All"), None)), [])));
    w := Snapshot(map["app" := Failed], map[], map[], s => true, (s, ls) => true);
    q := Query(ParentRef(None, None, None, "gw", None, None), "app", [], "app", HTTPRoute);
    a, b := [broken, open], [open, broken];
    assert "Selector"[0] != "All"[0] && "Selector"[1] != "Same"[1];
    assert ListenerAllows(w, broken, q) == Error;
    assert ListenerAllows(w, open, q) == Yes;
  }

  // ----- backend references -----

  const RESOLVED_VERDICT := Verdict(ConditionTrue, "ResolvedRefs", "Resolved route references")
  const INVALID_KIND := Verdict(ConditionFalse, "InvalidKind", "Only core Service backendRefs are supported")
  const REF_NOT_PERMITTED := Verdict(ConditionFalse, "RefNotPermitted", "Cross-namespace backendRef is not permitted")
  const NO_PORT := Verdict(ConditionFalse, "BackendNotFound", "Service backendRef must include a port")
  const NO_SERVICE := Verdict(ConditionFalse, "BackendNotFound", "Referenced Service was not found")
  const NO_SERVICE_PORT := Verdict(ConditionFalse, "BackendNotFound", "Referenced Service port was not found")

  /** What is wrong with one backend: nothing, a verdict, or a failed lookup. */
  datatype BackendCheck = BackendOk | BackendBad(verdict: Verdict) | BackendError

  function CheckBackend(w: Snapshot, routeNamespace: string, kind: RouteKind, ref: BackendRef): BackendCheck {
    if ref.group.GetOr("") != "" || ref.kind.GetOr("Service") != "Service" then BackendBad(INVALID_KIND)
    else
      var namespace := ref.namespace.GetOr(routeNamespace);
      var from := GrantFrom(GATEWAY_GROUP, kind.Name(), routeNamespace);
      if !Permitted(w.GrantsIn(namespace), from, "", "Service", namespace, ref.name) then
        BackendBad(REF_NOT_PERMITTED)
      else if ref.port.None? then BackendBad(NO_PORT)
      else match w.ServicePorts(NamespacedName(namespace, ref.name))
        case NotFound => BackendBad(NO_SERVICE)
        case Failed => BackendError
        case Found(ports) => if ref.port.value in ports then BackendOk else BackendBad(NO_SERVICE_PORT)
  }

  /** The reference is to a core Service. */
  predicate IsService(ref: BackendRef) {
    (ref.group == None || ref.group == Some("")) && (ref.kind == None || ref.kind == Some("Service"))
  }

  predicate BackendPermitted(w: Snapshot, routeNamespace: string, kind: RouteKind, ref: BackendRef) {
    var namespace := if ref.namespace.Some? then ref.namespace.value else routeNamespace;
    var grants := if namespace in w.grants then w.grants[namespace] else Found([]);
    var from := GrantFrom("gateway.networking.k8s.io", KindName(kind), routeNamespace);
    namespace == routeNamespace || (grants.Found? && SomeGrants(grants.value, from, ref.name))
  }

  predicate SomeGrants(grants: seq<ReferenceGrant>, from: GrantFrom, service: string) {
    exists i :: 0 <= i < |grants| && Grants(grants[i], from, "", "Service", service)
  }

  lemma BackendPermittedMeans(w: Snapshot, routeNamespace: string, kind: RouteKind, ref: BackendRef)
    ensures var namespace := ref.namespace.GetOr(routeNamespace);
      var from := GrantFrom(GATEWAY_GROUP, kind.Name(), routeNamespace);
      Permitted(w.GrantsIn(namespace), from, "", "Service", namespace, ref.name) <==>
      BackendPermitted(w, routeNamespace, kind, ref)
  {
    assert GrantFrom(GATEWAY_GROUP, kind.Name(), routeNamespace) ==
           GrantFrom("gateway.networking.k8s.io", KindName(kind), routeNamespace);
  }

  /** The Service that the reference names, as the read returns it. */
  function ServiceOf(w: Snapshot, routeNamespace: string, ref: BackendRef): Fetched<seq<int>> {
    var key := NamespacedName(if ref.namespace.Some? then ref.namespace.value else routeNamespace, ref.name);
    if key in w.services then w.services[key] else NotFound
  }

  predicate Refuses(c: BackendCheck, reason: string) {
    c.BackendBad? && c.verdict.status == ConditionFalse && c.verdict.reason == reason
  }

  /** A backend on its own fields: ok, or refused for the first of its kind, its permission,
      and its missing port or Service; or undecided because the read failed. */
  lemma CheckBackendMeans(w: Snapshot, routeNamespace: string, kind: RouteKind, ref: BackendRef)
    ensures var c, svc := CheckBackend(w, routeNamespace, kind, ref), ServiceOf(w, routeNamespace, ref);
      if !IsService(ref) then Refuses(c, "InvalidKind")
      else if !BackendPermitted(w, routeNamespace, kind, ref) then Refuses(c, "RefNotPermitted")
      else if ref.port == None || svc.NotFound? then Refuses(c, "BackendNotFound")
      else if svc.Failed? then c == BackendError
      else if ref.port.value in svc.value then c == BackendOk
      else Refuses(c, "BackendNotFound")
  {
    BackendPermittedMeans(w, routeNamespace, kind, ref);
    var key := NamespacedName(ref.namespace.GetOr(routeNamespace), ref.name);
    assert w.ServicePorts(key) == ServiceOf(w, routeNamespace, ref);
  }

  /** `backendRefsResolved`: resolved exactly when every backend is, otherwise the finding
      of the first that is not. `None` is the error return. */
  method BackendRefsResolved(w: Snapshot, routeNamespace: string, kind: RouteKind, refs: seq<BackendRef>)
    returns (r: Option<Verdict>)
    ensures r == Resolution(w, routeNamespace, kind, refs)
    ensures r == Some(RESOLVED_VERDICT) <==>
      forall i :: 0 <= i < |refs| ==> CheckBackend(w, routeNamespace, kind, refs[i]) == BackendOk
  {
    for i := 0 to |refs|
      invariant forall k :: 0 <= k < i ==> CheckBackend(w, routeNamespace, kind, refs[k]) == BackendOk
      invariant Resolution(w, routeNamespace, kind, refs) == Resolution(w, routeNamespace, kind, refs[i..])
    {
      var ref := refs[i];
      assert refs[i..][0] == ref && refs[i..][1..] == refs[i + 1..];
      if ref.group.GetOr("") != "" || ref.kind.GetOr("Service") != "Service" {
        return Some(INVALID_KIND);
      }
      var namespace := ref.namespace.GetOr(routeNamespace);
      var permitted := ReferencePermitted(w.GrantsIn(namespace), GrantFrom(GATEWAY_GROUP, kind.Name(), routeNamespace),
        "", "Service", namespace, ref.name);
      if !permitted {
        return Some(REF_NOT_PERMITTED);
      }
      if ref.port.None? {
        return Some(NO_PORT);
      }
      var ports := w.ServicePorts(NamespacedName(namespace, ref.name));
      if ports == NotFound {
        return Some(NO_SERVICE);
      }
      if ports == Failed {
        return None;
      }
      if ref.port.value !in ports.value {
        return Some(NO_SERVICE_PORT);
      }
    }
    r := Some(RESOLVED_VERDICT);
  }

  function Resolution(w: Snapshot, routeNamespace: string, kind: RouteKind, refs: seq<BackendRef>): Option<Verdict> {
    if refs == [] then Some(RESOLVED_VERDICT)
    else match CheckBackend(w, routeNamespace, kind, refs[0])
      case BackendBad(v) => Some(v)
      case BackendError => None
      case BackendOk => Resolution(w, routeNamespace, kind, refs[1..])
  }
}
