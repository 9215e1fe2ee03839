/** The records that the controller reads and writes: the parts of the Gateway API
    and of the core API that its decisions depend on. A Go pointer field is an
    `Option`, a slice is a `seq` and a string-typed enumeration stays a `string`. */
module GatewayApi {

  datatype Option<+T> = None | Some(value: T) {
    function GetOr(default: T): T {
      match this
      case None => default
      case Some(v) => v
    }
  }

  /** What a client read returns: the object, a not-found error, or another error. */
  datatype Fetched<+T> = Found(value: T) | NotFound | Failed

  datatype NamespacedName = NamespacedName(namespace: string, name: string)

  const GATEWAY_GROUP := "gateway.networking.k8s.io"
  const CONTROLLER_NAME := "gateway.azure.com/appnet-gateway.controller"

  const HTTP_PROTOCOL := "HTTP"
  const HTTPS_PROTOCOL := "HTTPS"
  const TLS_PROTOCOL := "TLS"
  const TLS_PASSTHROUGH := "Passthrough"

  datatype ConditionStatus = ConditionTrue | ConditionFalse | ConditionUnknown

  /** `metav1.Condition`; `kind` is its Type field. Times are whole seconds. */
  datatype Condition = Condition(
    kind: string,
    status: ConditionStatus,
    reason: string,
    message: string,
    lastTransitionTime: int,
    observedGeneration: int)

  datatype SecretRef = SecretRef(
    group: Option<string>,
    kind: Option<string>,
    namespace: Option<string>,
    name: string)

  datatype ListenerTls = ListenerTls(mode: Option<string>, certificateRefs: seq<SecretRef>)

  datatype RouteGroupKind = RouteGroupKind(group: Option<string>, kind: string)

  datatype Requirement = Requirement(key: string, operator: string, values: seq<string>)

  datatype LabelSelector = LabelSelector(matchLabels: map<string, string>, matchExpressions: seq<Requirement>)

  datatype RouteNamespaces = RouteNamespaces(from: Option<string>, selector: Option<LabelSelector>)

  datatype AllowedRoutes = AllowedRoutes(namespaces: Option<RouteNamespaces>, kinds: seq<RouteGroupKind>)

  datatype Listener = Listener(
    name: string,
    hostname: Option<string>,
    port: int,
    protocol: string,
    tls: Option<ListenerTls>,
    allowedRoutes: Option<AllowedRoutes>)

  datatype ListenerStatus = ListenerStatus(
    name: string,
    supportedKinds: seq<RouteGroupKind>,
    attachedRoutes: int,
    conditions: seq<Condition>)

  datatype Address = IPAddress(value: string) | HostnameAddress(value: string)

  datatype GatewayStatus = GatewayStatus(
    addresses: seq<Address>,
    conditions: seq<Condition>,
    listeners: seq<ListenerStatus>)

  /** A Gateway; `clientCert` is spec.tls.backend.clientCertificateRef. */
  datatype Gateway = Gateway(
    key: NamespacedName,
    generation: int,
    deleting: bool,
    className: string,
    listeners: seq<Listener>,
    clientCert: Option<SecretRef>,
    status: GatewayStatus)

  datatype ParentRef = ParentRef(
    group: Option<string>,
    kind: Option<string>,
    namespace: Option<string>,
    name: string,
    sectionName: Option<string>,
    port: Option<int>)

  datatype ParentStatus = ParentStatus(
    parentRef: ParentRef,
    controllerName: string,
    conditions: seq<Condition>)

  datatype GrantFrom = GrantFrom(group: string, kind: string, namespace: string)

  datatype GrantTo = GrantTo(group: string, kind: string, name: Option<string>)

  datatype ReferenceGrant = ReferenceGrant(from: seq<GrantFrom>, to: seq<GrantTo>)

  datatype BackendRef = BackendRef(
    group: Option<string>,
    kind: Option<string>,
    namespace: Option<string>,
    name: string,
    port: Option<int>)
}
