/** The Gateway's Service: the port list it is rendered with, and what an update keeps of
    the fields the API server assigned. */
module ServicePorts {
  import opened GatewayApi

  datatype ServicePort = ServicePort(name: string, port: int, protocol: string, nodePort: int)

  // ----- decimal port names -----

  function Digits(n: nat): string {
    if n < 10 then ['0' + n as char] else Digits(n / 10) + ['0' + (n % 10) as char]
  }

  /** fmt's %d. */
  function Decimal(n: int): string {
    if n < 0 then "-" + Digits(-n) else Digits(n)
  }

  function Value(s: string): int {
    if s == "" then 0 else Value(s[..|s| - 1]) * 10 + (s[|s| - 1] as int - '0' as int)
  }

  lemma {:induction false} ValueOfDigits(n: nat)
    ensures Value(Digits(n)) == n && Digits(n) != "" && '0' <= Digits(n)[0] <= '9'
  {
    if n < 10 {
      assert Digits(n)[..0] == "";
      assert Value(Digits(n)[..0]) == 0;
    } else {
      ValueOfDigits(n / 10);
      assert Digits(n)[..|Digits(n)| - 1] == Digits(n / 10);
    }
  }

  lemma DecimalInjective(a: int, b: int)
    requires Decimal(a) == Decimal(b)
    ensures a == b
  {
    ValueOfDigits(if a < 0 then -a else a);
    ValueOfDigits(if b < 0 then -b else b);
    if a < 0 && b < 0 {
      assert Decimal(a)[1..] == Digits(-a) && Decimal(b)[1..] == Digits(-b);
    }
  }

  function PortName(port: int): string {
    "p-" + Decimal(port)
  }

  lemma PortNameInjective(a: int, b: int)
    requires PortName(a) == PortName(b)
    ensures a == b
  {
    assert PortName(a)[2..] == Decimal(a) && PortName(b)[2..] == Decimal(b);
    DecimalInjective(a, b);
  }

  // ----- rendering -----

  const DEFAULT_PORT := ServicePort("http", 80, "TCP", 0)

  function PortFor(port: int): ServicePort {
    ServicePort(PortName(port), port, "TCP", 0)
  }

  /** The ports in order of first occurrence. */
  function FirstOccurrences(ls: seq<Listener>): seq<int> {
    if ls == [] then []
    else
      var before := FirstOccurrences(ls[..|ls| - 1]);
      var p := ls[|ls| - 1].port;
      if p in before then before else before + [p]
  }

  function RenderedPorts(ls: seq<Listener>): seq<ServicePort> {
    var ports := FirstOccurrences(ls);
    if ports == [] then [DEFAULT_PORT]
    else seq(|ports|, i requires 0 <= i < |ports| => PortFor(ports[i]))
  }

  /** The port loop of `AgentGatewayService`. */
  method RenderServicePorts(ls: seq<Listener>) returns (ports: seq<ServicePort>)
    ensures ports == RenderedPorts(ls)
  {
    var seen: set<int> := {};
    ports := [];
    for i := 0 to |ls|
      invariant forall p :: p in seen <==> p in FirstOccurrences(ls[..i])
      invariant |ports| == |FirstOccurrences(ls[..i])|
      invariant forall k :: 0 <= k < |ports| ==> ports[k] == PortFor(FirstOccurrences(ls[..i])[k])
    {
      assert ls[..i + 1][..i] == ls[..i];
      var port := ls[i].port;
      if port in seen {
        continue;
      }
      seen := seen + {port};
      ports := ports + [ServicePort("p-" + Decimal(port), port, "TCP", 0)];
    }
    assert ls[..|ls|] == ls;
    if |ports| == 0 {
      ports := [DEFAULT_PORT];
    }
  }

  predicate HasPort(ls: seq<Listener>, p: int) {
    exists i :: 0 <= i < |ls| && ls[i].port == p
  }

  lemma HasPortSplit(ls: seq<Listener>, p: int)
    requires ls != []
    ensures HasPort(ls, p) <==> HasPort(ls[..|ls| - 1], p) || ls[|ls| - 1].port == p
  {
    var n := |ls| - 1;
    if HasPort(ls, p) && ls[n].port != p {
      var i :| 0 <= i < |ls| && ls[i].port == p;
      assert ls[..n][i].port == p;
    }
    if HasPort(ls[..n], p) {
      var i :| 0 <= i < n && ls[..n][i].port == p;
      assert ls[i].port == p;
    }
  }

  lemma {:induction false} OccursIff(ls: seq<Listener>, p: int)
    ensures p in FirstOccurrences(ls) <==> HasPort(ls, p)
  {
    if ls != [] {
      OccursIff(ls[..|ls| - 1], p);
      HasPortSplit(ls, p);
    }
  }

  lemma {:induction false} OccurrencesDistinct(ls: seq<Listener>, i: nat, j: nat)
    requires i < j < |FirstOccurrences(ls)|
    ensures FirstOccurrences(ls)[i] != FirstOccurrences(ls)[j]
  {
    var before := FirstOccurrences(ls[..|ls| - 1]);
    if j < |before| {
      OccurrencesDistinct(ls[..|ls| - 1], i, j);
    } else {
      assert before[i] in before;
    }
  }

  /** `p` occurs among the listeners before `q` does. */
  predicate OccursBefore(ls: seq<Listener>, p: int, q: int) {
    exists a :: 0 <= a < |ls| && ls[a].port == p && !HasPort(ls[..a + 1], q)
  }

  /** The ports come in the order in which the listeners first mention them. */
  lemma {:induction false} OccurrencesInOrder(ls: seq<Listener>, i: nat, j: nat)
    requires i < j < |FirstOccurrences(ls)|
    ensures OccursBefore(ls, FirstOccurrences(ls)[i], FirstOccurrences(ls)[j])
  {
    var n := |ls| - 1;
    var before, ports := FirstOccurrences(ls[..n]), FirstOccurrences(ls);
    if j < |before| {
      OccurrencesInOrder(ls[..n], i, j);
      var a :| 0 <= a < n && ls[..n][a].port == ports[i] && !HasPort(ls[..n][..a + 1], ports[j]);
      assert ls[..n][..a + 1] == ls[..a + 1];
      assert ls[a].port == ports[i];
    } else {
      assert before[i] in before;
      OccursIff(ls[..n], ports[i]);
      OccursIff(ls[..n], ports[j]);
      var a :| 0 <= a < n && ls[..n][a].port == ports[i];
      var front := ls[..a + 1];
      forall b | 0 <= b < |front| ensures front[b].port != ports[j] {
        assert ls[..n][b].port == front[b].port;
      }
      assert ls[a].port == ports[i];
    }
  }

  predicate UniquelyNamed(ps: seq<ServicePort>) {
    && (forall i :: 0 <= i < |ps| ==> ps[i].name != "")
    && forall i, j :: 0 <= i < j < |ps| ==> ps[i].name != ps[j].name
  }

  lemma RenderedNames(ls: seq<Listener>)
    ensures RenderedPorts(ls) != [] && UniquelyNamed(RenderedPorts(ls))
  {
    var ports, ps := FirstOccurrences(ls), RenderedPorts(ls);
    forall i, j | 0 <= i < j < |ps| ensures ps[i].name != ps[j].name {
      OccurrencesDistinct(ls, i, j);
      if ps[i].name == ps[j].name {
        PortNameInjective(ports[i], ports[j]);
      }
    }
  }

  /** The rendered list is never empty, its names are unique, and for a Gateway with
      listeners a port is exposed exactly when some listener has it, once each, over TCP and
      without a node port of its own. */
  lemma RenderedFacts(ls: seq<Listener>, port: int)
    ensures var ps := RenderedPorts(ls);
      && ps != [] && UniquelyNamed(ps)
      && (ls != [] ==> (PortFor(port) in ps <==> HasPort(ls, port)))
      && (ls != [] ==> forall j :: 0 <= j < |ps| ==>
            ps[j] == ServicePort("p-" + Decimal(ps[j].port), ps[j].port, "TCP", 0))
      && (ls == [] ==> ps == [ServicePort("http", 80, "TCP", 0)])
  {
    RenderedNames(ls);
    OccursIff(ls, port);
    var ports, ps := FirstOccurrences(ls), RenderedPorts(ls);
    if ls != [] {
      OccursIff(ls, ls[0].port);
      assert ls[0].port in ports;
      if port in ports {
        var j :| 0 <= j < |ports| && ports[j] == port;
        assert ps[j] == PortFor(port);
      }
      if PortFor(port) in ps {
        var j :| 0 <= j < |ps| && ps[j] == PortFor(port);
        assert ports[j] == port;
      }
    }
  }

  // ----- updating -----

  /** `servicePortMatches`. */
  predicate PortMatches(a: ServicePort, b: ServicePort) {
    if a.name != "" && b.name != "" then a.name == b.name else a.port == b.port && a.protocol == b.protocol
  }

  /** Ports match by name when both are named, and otherwise by number and protocol. */
  lemma PortMatchesMeans(a: ServicePort, b: ServicePort)
    ensures PortMatches(a, b) <==>
      || (a.name != "" && b.name != "" && a.name == b.name)
      || ((a.name == "" || b.name == "") && a.port == b.port && a.protocol == b.protocol)
  {
  }

  function FirstMatch(p: ServicePort, current: seq<ServicePort>): Option<ServicePort> {
    if current == [] then None
    else if PortMatches(p, current[0]) then Some(current[0])
    else FirstMatch(p, current[1..])
  }

  function Inherit(p: ServicePort, current: seq<ServicePort>): ServicePort {
    match FirstMatch(p, current)
    case None => p
    case Some(c) => p.(nodePort := c.nodePort)
  }

  lemma {:induction false} FirstMatchAt(p: ServicePort, current: seq<ServicePort>, k: nat)
    requires k <= |current| && forall m :: 0 <= m < k ==> !PortMatches(p, current[m])
    ensures k == |current| ==> FirstMatch(p, current) == None
    ensures k < |current| && PortMatches(p, current[k]) ==> FirstMatch(p, current) == Some(current[k])
  {
    if k > 0 {
      FirstMatchAt(p, current[1..], k - 1);
    }
  }

  /** Server-assigned fields of a Service besides the node ports. */
  datatype NetworkFields = NetworkFields(
    clusterIP: string,
    clusterIPs: seq<string>,
    ipFamilies: seq<string>,
    ipFamilyPolicy: Option<string>,
    healthCheckNodePort: int,
    allocateNodePorts: Option<bool>)

  class Service {
    var network: NetworkFields
    const ports: array<ServicePort>

    constructor (network: NetworkFields, ports: array<ServicePort>)
      ensures this.network == network && this.ports == ports
    {
      this.network := network;
      this.ports := ports;
    }

    /** `preserveServiceFields`, on the desired object. */
    method PreserveFrom(current: Service)
      requires current != this && current.ports != ports
      modifies this, ports
      ensures network == current.network
      ensures forall i :: 0 <= i < ports.Length ==> ports[i] == Inherit(old(ports[i]), current.ports[..])
    {
      network := current.network;
      for i := 0 to ports.Length
        invariant forall k :: i <= k < ports.Length ==> ports[k] == old(ports[k])
        invariant forall k :: 0 <= k < i ==> ports[k] == Inherit(old(ports[k]), current.ports[..])
        invariant network == current.network
      {
        var k := 0;
        while k < current.ports.Length && !PortMatches(ports[i], current.ports[k])
          invariant k <= current.ports.Length
          invariant forall m :: 0 <= m < k ==> !PortMatches(ports[i], current.ports[m])
        {
          k := k + 1;
        }
        FirstMatchAt(ports[i], current.ports[..], k);
        if k < current.ports.Length {
          ports[i] := ports[i].(nodePort := current.ports[k].nodePort);
        }
      }
    }
  }

  lemma {:induction false} FirstMatchNamed(p: ServicePort, current: seq<ServicePort>, k: nat)
    requires UniquelyNamed(current) && k < |current| && p.name == current[k].name
    ensures FirstMatch(p, current) == Some(current[k])
  {
    forall m | 0 <= m < k ensures !PortMatches(p, current[m]) {
      assert current[m].name != current[k].name;
    }
    FirstMatchAt(p, current, k);
  }

  lemma FirstMatchUnnamed(p: ServicePort, current: seq<ServicePort>)
    requires UniquelyNamed(current) && p.name != "" && forall k :: 0 <= k < |current| ==> current[k].name != p.name
    ensures FirstMatch(p, current) == None
  {
    FirstMatchAt(p, current, |current|);
  }

  /** A stored Service that was rendered from `ls` and given node ports by the server. */
  predicate StoredFrom(current: seq<ServicePort>, ls: seq<Listener>) {
    |current| == |RenderedPorts(ls)| &&
    forall i :: 0 <= i < |current| ==> current[i] == RenderedPorts(ls)[i].(nodePort := current[i].nodePort)
  }

  lemma InheritByName(p: ServicePort, current: seq<ServicePort>)
    requires UniquelyNamed(current) && p.name != ""
    ensures forall k :: 0 <= k < |current| && current[k].name == p.name ==>
      Inherit(p, current) == p.(nodePort := current[k].nodePort)
    ensures !Inherits(p, current) ==> Inherit(p, current) == p
  {
    forall k | 0 <= k < |current| && current[k].name == p.name
      ensures Inherit(p, current) == p.(nodePort := current[k].nodePort)
    {
      FirstMatchNamed(p, current, k);
    }
    if !Inherits(p, current) {
      FirstMatchUnnamed(p, current);
    }
  }

  lemma InheritedDiffer(p: ServicePort, q: ServicePort, current: seq<ServicePort>)
    requires UniquelyNamed(current) && DistinctNodePorts(current) && p.name != q.name
    requires Inherits(p, current) && Inherits(q, current)
    ensures Inherit(p, current).nodePort != Inherit(q, current).nodePort
  {
    var m :| 0 <= m < |current| && current[m].name == p.name;
    var n :| 0 <= n < |current| && current[n].name == q.name;
    FirstMatchNamed(p, current, m);
    FirstMatchNamed(q, current, n);
  }

  lemma StoredIsNamed(current: seq<ServicePort>, ls: seq<Listener>)
    requires StoredFrom(current, ls)
    ensures UniquelyNamed(current)
  {
    RenderedNames(ls);
    assert forall k :: 0 <= k < |current| ==> current[k].name == RenderedPorts(ls)[k].name;
  }

  /** Applying a new rendering over an earlier one keeps the node port of every port named
      in both, leaves the others for the server to assign, and never gives two ports the
      same inherited node port when the old ones were distinct. */
  lemma NodePortsAreKept(before: seq<Listener>, current: seq<ServicePort>, after: seq<Listener>, i: nat, j: nat)
    requires StoredFrom(current, before) && i < |RenderedPorts(after)| && j < |RenderedPorts(after)|
    ensures var p, q := RenderedPorts(after)[i], RenderedPorts(after)[j];
      && (forall k :: 0 <= k < |current| && current[k].name == p.name ==>
        Inherit(p, current) == p.(nodePort := current[k].nodePort))
      && (!Inherits(p, current) ==> Inherit(p, current) == p && p.nodePort == 0)
      && (Inherits(p, current) && Inherits(q, current) && i != j && DistinctNodePorts(current) ==>
            Inherit(p, current).nodePort != Inherit(q, current).nodePort)
  {
    StoredIsNamed(current, before);
    RenderedNames(after);
    var p, q := RenderedPorts(after)[i], RenderedPorts(after)[j];
    InheritByName(p, current);
    if Inherits(p, current) && Inherits(q, current) && i != j && DistinctNodePorts(current) {
      InheritedDiffer(p, q, current);
    }
  }

  // ----- whole histories of a Service -----

  function InheritAll(ports: seq<ServicePort>, current: seq<ServicePort>): seq<ServicePort> {
    seq(|ports|, i requires 0 <= i < |ports| => Inherit(ports[i], current))
  }

  /** The server stores what was asked, choosing non-zero node ports where none was given. */
  predicate ServerStores(asked: seq<ServicePort>, stored: seq<ServicePort>) {
    && |stored| == |asked|
    && forall i :: 0 <= i < |asked| ==>
      && stored[i] == asked[i].(nodePort := stored[i].nodePort) && stored[i].nodePort != 0
      && (asked[i].nodePort != 0 ==> stored[i].nodePort == asked[i].nodePort)
  }

  /** `stored[k]` is what the server holds after the rendering for `specs[k]` was applied. */
  predicate History(specs: seq<seq<Listener>>, stored: seq<seq<ServicePort>>) {
    && |specs| == |stored| > 0
    && ServerStores(RenderedPorts(specs[0]), stored[0])
    && forall k {:trigger specs[k]} :: 0 < k < |specs| ==>
      ServerStores(InheritAll(RenderedPorts(specs[k]), stored[k - 1]), stored[k])
  }

  /** Storing a rendering, inherited or not, changes node ports only. */
  lemma StoringKeepsRendering(spec: seq<Listener>, previous: seq<ServicePort>, next: seq<ServicePort>)
    requires ServerStores(InheritAll(RenderedPorts(spec), previous), next)
    ensures StoredFrom(next, spec)
  {
    var ps := RenderedPorts(spec);
    assert |next| == |InheritAll(ps, previous)| == |ps|;
    forall i | 0 <= i < |ps| ensures next[i] == ps[i].(nodePort := next[i].nodePort) {
      assert InheritAll(ps, previous)[i] == Inherit(ps[i], previous);
    }
  }

  lemma HistoryStored(specs: seq<seq<Listener>>, stored: seq<seq<ServicePort>>, k: nat)
    requires History(specs, stored) && k < |specs|
    ensures UniquelyNamed(stored[k]) && forall i :: 0 <= i < |stored[k]| ==> stored[k][i].nodePort != 0
  {
    if k > 0 {
      StoringKeepsRendering(specs[k], stored[k - 1], stored[k]);
    }
    StoredIsNamed(stored[k], specs[k]);
  }

  lemma NodePortStep(spec: seq<Listener>, previous: seq<ServicePort>, next: seq<ServicePort>, i: nat, j: nat)
    requires UniquelyNamed(previous) && ServerStores(InheritAll(RenderedPorts(spec), previous), next)
    requires i < |previous| && j < |next| && previous[i].name == next[j].name && previous[i].nodePort != 0
    ensures next[j].nodePort == previous[i].nodePort
  {
    StoringKeepsRendering(spec, previous, next);
    var p := RenderedPorts(spec)[j];
    assert InheritAll(RenderedPorts(spec), previous)[j] == Inherit(p, previous);
    FirstMatchNamed(p, previous, i);
  }

  lemma HistoryStep(specs: seq<seq<Listener>>, stored: seq<seq<ServicePort>>, k: nat, i: nat, j: nat)
    requires History(specs, stored) && 0 < k < |specs| && i < |stored[k - 1]| && j < |stored[k]|
    requires stored[k - 1][i].name == stored[k][j].name
    ensures stored[k][j].nodePort == stored[k - 1][i].nodePort
  {
    HistoryStored(specs, stored, k - 1);
    NodePortStep(specs[k], stored[k - 1], stored[k], i, j);
  }

  predicate Named(ports: seq<ServicePort>, name: string) {
    exists i :: 0 <= i < |ports| && ports[i].name == name
  }

  /** Over every history of applies, a port keeps its node port for as long as every
      rendering exposes it, however the other ports come and go. */
  lemma {:induction false} NodePortIsStable(specs: seq<seq<Listener>>, stored: seq<seq<ServicePort>>, a: nat, b: nat,
                                            i: nat, j: nat)
    requires History(specs, stored) && a <= b < |specs| && i < |stored[a]| && j < |stored[b]|
    requires stored[a][i].name == stored[b][j].name
    requires forall k :: a <= k <= b ==> Named(stored[k], stored[a][i].name)
    ensures stored[b][j].nodePort == stored[a][i].nodePort
    decreases b
  {
    if a == b {
      HistoryStored(specs, stored, a);
    } else {
      assert Named(stored[b - 1], stored[a][i].name);
      var m :| 0 <= m < |stored[b - 1]| && stored[b - 1][m].name == stored[a][i].name;
      NodePortIsStable(specs, stored, a, b - 1, i, m);
      HistoryStep(specs, stored, b, m, j);
    }
  }

  predicate Inherits(p: ServicePort, current: seq<ServicePort>) {
    exists k :: 0 <= k < |current| && current[k].name == p.name
  }

  predicate DistinctNodePorts(current: seq<ServicePort>) {
    forall i, j :: 0 <= i < j < |current| ==> current[i].nodePort != current[j].nodePort
  }
}
