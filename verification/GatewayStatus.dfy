/** The status transforms applied to a Gateway: `MarkAccepted`, `MarkProgrammed` and
    `MarkListenerResolvedRefs`, each on the copy of the Gateway it has just read. */
module GatewayStatuses {
  import opened GatewayApi
  import opened Conditions

  const ACCEPTED := "Accepted"
  const PROGRAMMED := "Programmed"
  const RESOLVED_REFS := "ResolvedRefs"

  function GatewayAccepted(generation: int, now: int): Condition {
    Condition(ACCEPTED, ConditionTrue, "Accepted", "Accepted by appnet-gateway.controller", now, generation)
  }

  /** The same record for the Gateway and for its listeners. */
  function Pending(generation: int, now: int): Condition {
    Condition(PROGRAMMED, ConditionUnknown, "Pending", "Waiting for agentgateway data plane", now, generation)
  }

  function GatewayProgrammed(generation: int, now: int): Condition {
    Condition(PROGRAMMED, ConditionTrue, "Programmed", "agentgateway data plane ready", now, generation)
  }

  function ListenerAccepted(generation: int, now: int): Condition {
    Condition(ACCEPTED, ConditionTrue, "Accepted", "Accepted", now, generation)
  }

  function ListenerResolved(generation: int, now: int): Condition {
    Condition(RESOLVED_REFS, ConditionTrue, "ResolvedRefs", "Resolved listener references", now, generation)
  }

  function ListenerProgrammed(generation: int, now: int): Condition {
    Condition(PROGRAMMED, ConditionTrue, "Programmed", "Programmed", now, generation)
  }

  predicate ProgrammedAt(cs: seq<Condition>, generation: int) {
    var p := Lookup(cs, PROGRAMMED);
    p.Some? && p.value.status == ConditionTrue && p.value.observedGeneration == generation
  }

  /** Reset Programmed to Unknown unless it is True at this generation. */
  function KeepOrPend(cs: seq<Condition>, generation: int, now: int): seq<Condition> {
    if ProgrammedAt(cs, generation) then cs else Upsert(cs, Pending(generation, now))
  }

  function SupportedKinds(protocol: string): seq<RouteGroupKind> {
    if protocol == HTTP_PROTOCOL || protocol == HTTPS_PROTOCOL then
      [RouteGroupKind(None, "HTTPRoute"), RouteGroupKind(None, "GRPCRoute")]
    else if protocol == TLS_PROTOCOL then [RouteGroupKind(None, "TLSRoute")]
    else []
  }

  /** The entry a Go map keyed by listener name ends up with: the last one. */
  function LastNamed(ls: seq<ListenerStatus>, name: string): Option<ListenerStatus> {
    if ls == [] then None
    else if ls[|ls| - 1].name == name then Some(ls[|ls| - 1])
    else LastNamed(ls[..|ls| - 1], name)
  }

  function AcceptListenerConditions(cs: seq<Condition>, generation: int, now: int): seq<Condition> {
    var accepted := Upsert(cs, ListenerAccepted(generation, now));
    Upsert(KeepOrPend(accepted, generation, now), ListenerResolved(generation, now))
  }

  function AcceptListener(l: Listener, existing: seq<ListenerStatus>, generation: int, now: int): ListenerStatus {
    var ls := LastNamed(existing, l.name).GetOr(ListenerStatus(l.name, [], 0, []));
    ls.(supportedKinds := SupportedKinds(l.protocol),
        conditions := AcceptListenerConditions(ls.conditions, generation, now))
  }

  function AcceptConditions(cs: seq<Condition>, generation: int, now: int): seq<Condition> {
    KeepOrPend(Upsert(cs, GatewayAccepted(generation, now)), generation, now)
  }

  function AcceptedStatus(gw: Gateway, now: int): GatewayStatus {
    gw.status.(
      conditions := AcceptConditions(gw.status.conditions, gw.generation, now),
      listeners := seq(|gw.listeners|, i requires 0 <= i < |gw.listeners| =>
        AcceptListener(gw.listeners[i], gw.status.listeners, gw.generation, now)))
  }

  function ProgramListener(ls: ListenerStatus, generation: int, now: int): ListenerStatus {
    ls.(conditions := Upsert(ls.conditions, ListenerProgrammed(generation, now)))
  }

  function ProgrammedStatus(gw: Gateway, addresses: seq<Address>, now: int): GatewayStatus {
    var ls := gw.status.listeners;
    GatewayStatus(
      if addresses == [] then gw.status.addresses else addresses,
      Upsert(gw.status.conditions, GatewayProgrammed(gw.generation, now)),
      seq(|ls|, i requires 0 <= i < |ls| => ProgramListener(ls[i], gw.generation, now)))
  }

  /** Upsert `c` into every listener status with the given name. */
  function UpsertNamed(ls: seq<ListenerStatus>, name: string, c: Condition): seq<ListenerStatus> {
    seq(|ls|, i requires 0 <= i < |ls| => UpsertIfNamed(ls[i], name, c))
  }

  function UpsertIfNamed(ls: ListenerStatus, name: string, c: Condition): ListenerStatus {
    if ls.name == name then ls.(conditions := Upsert(ls.conditions, c)) else ls
  }

  /** Upsert `c` into the first listener status with the given name, if there is one. */
  function UpsertFirstNamed(ls: seq<ListenerStatus>, name: string, c: Condition): seq<ListenerStatus> {
    if ls == [] then []
    else if ls[0].name == name then [ls[0].(conditions := Upsert(ls[0].conditions, c))] + ls[1..]
    else [ls[0]] + UpsertFirstNamed(ls[1..], name, c)
  }

  function ResolvedRefsStatus(gw: Gateway, name: string, status: ConditionStatus, reason: string, message: string,
                              now: int): GatewayStatus {
    gw.status.(listeners := UpsertFirstNamed(gw.status.listeners, name,
      Condition(RESOLVED_REFS, status, reason, message, now, gw.generation)))
  }

  // ----- the retry bodies, with their loops -----

  method IndexByName(ls: seq<ListenerStatus>) returns (existing: map<string, ListenerStatus>)
    ensures forall n :: LastNamed(ls, n) == if n in existing then Some(existing[n]) else None
  {
    existing := map[];
    for i := 0 to |ls|
      invariant forall n :: LastNamed(ls[..i], n) == if n in existing then Some(existing[n]) else None
    {
      assert ls[..i + 1][..i] == ls[..i];
      existing := existing[ls[i].name := ls[i]];
    }
    assert ls[..|ls|] == ls;
  }

  method AcceptListeners(gw: Gateway, now: int) returns (listeners: seq<ListenerStatus>)
    ensures listeners == AcceptedStatus(gw, now).listeners
  {
    var existing := IndexByName(gw.status.listeners);
    listeners := [];
    for i := 0 to |gw.listeners|
      invariant listeners == AcceptedStatus(gw, now).listeners[..i]
    {
      var l := gw.listeners[i];
      var ls := if l.name in existing then existing[l.name] else ListenerStatus(l.name, [], 0, []);
      var cs := Upsert(ls.conditions, ListenerAccepted(gw.generation, now));
      if !ProgrammedAt(cs, gw.generation) {
        cs := Upsert(cs, Pending(gw.generation, now));
      }
      cs := Upsert(cs, ListenerResolved(gw.generation, now));
      listeners := listeners + [ls.(supportedKinds := SupportedKinds(l.protocol), conditions := cs)];
    }
  }

  method MarkAccepted(gw: Gateway, now: int) returns (status: GatewayStatus, write: bool)
    ensures status == AcceptedStatus(gw, now)
    ensures write <==> status != gw.status
  {
    var conditions := Upsert(gw.status.conditions, GatewayAccepted(gw.generation, now));
    if !ProgrammedAt(conditions, gw.generation) {
      conditions := Upsert(conditions, Pending(gw.generation, now));
    }
    var listeners := AcceptListeners(gw, now);
    status := gw.status.(conditions := conditions, listeners := listeners);
    write := status != gw.status;
  }

  method MarkProgrammed(gw: Gateway, addresses: seq<Address>, now: int) returns (status: GatewayStatus, write: bool)
    ensures status == ProgrammedStatus(gw, addresses, now)
    ensures write <==> status != gw.status
  {
    var listeners := gw.status.listeners;
    for i := 0 to |listeners|
      invariant |listeners| == |gw.status.listeners|
      invariant forall k :: 0 <= k < i ==> listeners[k] == ProgramListener(gw.status.listeners[k], gw.generation, now)
      invariant forall k :: i <= k < |listeners| ==> listeners[k] == gw.status.listeners[k]
    {
      listeners := listeners[i := listeners[i].(
        conditions := Upsert(listeners[i].conditions, ListenerProgrammed(gw.generation, now)))];
    }
    status := GatewayStatus(
      if |addresses| > 0 then addresses else gw.status.addresses,
      Upsert(gw.status.conditions, GatewayProgrammed(gw.generation, now)),
      listeners);
    assert status.listeners == ProgrammedStatus(gw, addresses, now).listeners;
    write := status != gw.status;
  }

  lemma {:induction false} UpsertFirstNamedAt(ls: seq<ListenerStatus>, name: string, c: Condition, i: nat)
    requires i <= |ls| && forall k :: 0 <= k < i ==> ls[k].name != name
    ensures i == |ls| ==> UpsertFirstNamed(ls, name, c) == ls
    ensures i < |ls| && ls[i].name == name ==>
      UpsertFirstNamed(ls, name, c) == ls[i := ls[i].(conditions := Upsert(ls[i].conditions, c))]
  {
    if i > 0 {
      UpsertFirstNamedAt(ls[1..], name, c, i - 1);
      assert ls == [ls[0]] + ls[1..];
      if i < |ls| && ls[i].name == name {
        var u := ls[i].(conditions := Upsert(ls[i].conditions, c));
        assert ls[i := u] == [ls[0]] + ls[1..][i - 1 := u];
      }
    }
  }

  method MarkListenerResolvedRefs(gw: Gateway, name: string, conditionStatus: ConditionStatus, reason: string,
                                  message: string, now: int) returns (status: GatewayStatus, write: bool)
    ensures status == ResolvedRefsStatus(gw, name, conditionStatus, reason, message, now)
    ensures write <==> status != gw.status
  {
    var listeners := gw.status.listeners;
    var c := Condition(RESOLVED_REFS, conditionStatus, reason, message, now, gw.generation);
    var i := 0;
    while i < |listeners| && listeners[i].name != name
      invariant i <= |listeners|
      invariant forall k :: 0 <= k < i ==> listeners[k].name != name
    {
      i := i + 1;
    }
    UpsertFirstNamedAt(listeners, name, c, i);
    if i < |listeners| {
      listeners := listeners[i := listeners[i].(conditions := Upsert(listeners[i].conditions, c))];
    }
    status := gw.status.(listeners := listeners);
    write := status != gw.status;
  }

  // ----- what one transform promises -----

  /** After `MarkAccepted` the listener statuses mirror the spec in order. */
  predicate Mirrors(gw: Gateway, status: GatewayStatus) {
    |status.listeners| == |gw.listeners| &&
    forall i :: 0 <= i < |gw.listeners| ==>
      && status.listeners[i].name == gw.listeners[i].name
      && status.listeners[i].supportedKinds == SupportedKinds(gw.listeners[i].protocol)
  }

  /** No Programmed=True is left over from another generation. */
  predicate ProgrammedIsCurrent(cs: seq<Condition>, generation: int) {
    forall i :: 0 <= i < |cs| && cs[i].kind == PROGRAMMED && cs[i].status == ConditionTrue ==>
      cs[i].observedGeneration == generation
  }

  lemma LastNamedHasName(ls: seq<ListenerStatus>, name: string)
    ensures LastNamed(ls, name).Some? ==> LastNamed(ls, name).value.name == name && LastNamed(ls, name).value in ls
  {
  }

  lemma {:induction false} UniqueLookup(cs: seq<Condition>, i: nat)
    requires UniqueKinds(cs) && i < |cs|
    ensures Lookup(cs, cs[i].kind) == Some(cs[i])
  {
    if i > 0 {
      UniqueLookup(cs[1..], i - 1);
    }
  }

  lemma AcceptConditionsFacts(cs: seq<Condition>, generation: int, now: int)
    ensures var r := AcceptConditions(cs, generation, now);
      && Settled(r, GatewayAccepted(generation, now))
      && (UniqueKinds(cs) ==> UniqueKinds(r) && ProgrammedIsCurrent(r, generation))
      && (ProgrammedAt(cs, generation) <==> ProgrammedAt(r, generation))
      && (!ProgrammedAt(cs, generation) ==> Settled(r, Pending(generation, now)))
      && (forall k :: k != ACCEPTED && k != PROGRAMMED ==> Lookup(r, k) == Lookup(cs, k))
  {
    var a := Upsert(cs, GatewayAccepted(generation, now));
    UpsertSettles(cs, GatewayAccepted(generation, now), GatewayAccepted(generation, now));
    UpsertFrame(cs, GatewayAccepted(generation, now));
    LookupOfUpsert(cs, GatewayAccepted(generation, now), PROGRAMMED);
    PendFacts(a, generation, now);
    forall k | k != ACCEPTED && k != PROGRAMMED ensures Lookup(KeepOrPend(a, generation, now), k) == Lookup(cs, k) {
      LookupOfUpsert(cs, GatewayAccepted(generation, now), k);
      LookupOfUpsert(a, Pending(generation, now), k);
    }
    LookupOfUpsert(a, Pending(generation, now), ACCEPTED);
  }

  lemma PendFacts(cs: seq<Condition>, generation: int, now: int)
    ensures var r := KeepOrPend(cs, generation, now);
      && (UniqueKinds(cs) ==> UniqueKinds(r) && ProgrammedIsCurrent(r, generation))
      && (ProgrammedAt(cs, generation) <==> ProgrammedAt(r, generation))
      && (!ProgrammedAt(cs, generation) ==> Settled(r, Pending(generation, now)))
  {
    var r := KeepOrPend(cs, generation, now);
    UpsertFrame(cs, Pending(generation, now));
    LookupOfUpsert(cs, Pending(generation, now), PROGRAMMED);
    if UniqueKinds(cs) {
      forall i | 0 <= i < |r| && r[i].kind == PROGRAMMED && r[i].status == ConditionTrue
        ensures r[i].observedGeneration == generation
      {
        UniqueLookup(r, i);
      }
    }
  }

  /** The condition types that the controller writes on a listener. */
  predicate OwnListenerKind(kind: string) {
    kind == ACCEPTED || kind == PROGRAMMED || kind == RESOLVED_REFS
  }

  lemma AcceptListenerKeepsOther(cs: seq<Condition>, generation: int, now: int, kind: string)
    requires !OwnListenerKind(kind)
    ensures Lookup(AcceptListenerConditions(cs, generation, now), kind) == Lookup(cs, kind)
  {
    var a := Upsert(cs, ListenerAccepted(generation, now));
    LookupOfUpsert(cs, ListenerAccepted(generation, now), kind);
    LookupOfUpsert(a, Pending(generation, now), kind);
    LookupOfUpsert(KeepOrPend(a, generation, now), ListenerResolved(generation, now), kind);
  }

  lemma AcceptListenerFacts(cs: seq<Condition>, generation: int, now: int)
    ensures var r := AcceptListenerConditions(cs, generation, now);
      && Settled(r, ListenerAccepted(generation, now)) && Settled(r, ListenerResolved(generation, now))
      && (UniqueKinds(cs) ==> UniqueKinds(r) && ProgrammedIsCurrent(r, generation))
      && (ProgrammedAt(cs, generation) <==> ProgrammedAt(r, generation))
      && (!ProgrammedAt(cs, generation) ==> Settled(r, Pending(generation, now)))
      && (forall k :: !OwnListenerKind(k) ==> Lookup(r, k) == Lookup(cs, k))
  {
    forall k | !OwnListenerKind(k) ensures Lookup(AcceptListenerConditions(cs, generation, now), k) == Lookup(cs, k) {
      AcceptListenerKeepsOther(cs, generation, now, k);
    }
    var acc := ListenerAccepted(generation, now);
    var res := ListenerResolved(generation, now);
    var a := Upsert(cs, acc);
    var p := KeepOrPend(a, generation, now);
    UpsertSettles(cs, acc, acc);
    UpsertFrame(cs, acc);
    LookupOfUpsert(cs, acc, PROGRAMMED);
    PendFacts(a, generation, now);
    LookupOfUpsert(a, Pending(generation, now), ACCEPTED);
    UpsertSettles(p, res, res);
    UpsertKeepsSettled(p, res, acc);
    UpsertFrame(p, res);
    LookupOfUpsert(p, res, PROGRAMMED);
    var r := AcceptListenerConditions(cs, generation, now);
    if UniqueKinds(cs) {
      forall i | 0 <= i < |r| && r[i].kind == PROGRAMMED && r[i].status == ConditionTrue
        ensures r[i].observedGeneration == generation
      {
        UniqueLookup(r, i);
        if !ProgrammedAt(a, generation) {
          LookupOfUpsert(a, Pending(generation, now), PROGRAMMED);
        }
      }
    }
  }

  /** The conditions that a listener's status had, if it had one. */
  function PreviousConditions(gw: Gateway, name: string): seq<Condition> {
    PreviousStatus(gw, name).conditions
  }

  function PreviousStatus(gw: Gateway, name: string): ListenerStatus {
    LastNamed(gw.status.listeners, name).GetOr(ListenerStatus(name, [], 0, []))
  }

  predicate UniqueStatus(status: GatewayStatus) {
    && UniqueKinds(status.conditions)
    && forall i :: 0 <= i < |status.listeners| ==> UniqueKinds(status.listeners[i].conditions)
  }

  /** Accepted=True at this generation; Programmed as it was if that was True at this
      generation, and otherwise Unknown, pending. */
  predicate AcceptedWell(before: seq<Condition>, after: seq<Condition>, message: string, generation: int) {
    var p := Lookup(before, "Programmed");
    && Shows(after, "Accepted", ConditionTrue, "Accepted", message, generation)
    && (if p.Some? && p.value.status == ConditionTrue && p.value.observedGeneration == generation then
          Lookup(after, "Programmed") == p
        else
          Shows(after, "Programmed", ConditionUnknown, "Pending", "Waiting for agentgateway data plane", generation))
  }

  /** The route kinds that a listener's status advertises. */
  predicate Advertises(ls: ListenerStatus, protocol: string) {
    ls.supportedKinds ==
      if protocol == "HTTP" || protocol == "HTTPS" then
        [RouteGroupKind(None, "HTTPRoute"), RouteGroupKind(None, "GRPCRoute")]
      else if protocol == "TLS" then [RouteGroupKind(None, "TLSRoute")]
      else []
  }

  lemma AcceptedWellGateway(cs: seq<Condition>, generation: int, now: int)
    ensures AcceptedWell(cs, AcceptConditions(cs, generation, now), "Accepted by appnet-gateway.controller", generation)
  {
    AcceptConditionsFacts(cs, generation, now);
    var a := Upsert(cs, GatewayAccepted(generation, now));
    LookupOfUpsert(cs, GatewayAccepted(generation, now), "Programmed");
    SettledShows(AcceptConditions(cs, generation, now), GatewayAccepted(generation, now));
    LookupOfUpsert(a, Pending(generation, now), "Programmed");
  }

  lemma AcceptedWellListener(cs: seq<Condition>, generation: int, now: int)
    ensures AcceptedWell(cs, AcceptListenerConditions(cs, generation, now), "Accepted", generation)
    ensures Shows(AcceptListenerConditions(cs, generation, now), "ResolvedRefs", ConditionTrue, "ResolvedRefs",
                  "Resolved listener references", generation)
  {
    AcceptListenerFacts(cs, generation, now);
    var r, a := AcceptListenerConditions(cs, generation, now), Upsert(cs, ListenerAccepted(generation, now));
    SettledShows(r, ListenerAccepted(generation, now));
    SettledShows(r, ListenerResolved(generation, now));
    LookupOfUpsert(cs, ListenerAccepted(generation, now), "Programmed");
    LookupOfUpsert(a, Pending(generation, now), "Programmed");
    LookupOfUpsert(KeepOrPend(a, generation, now), ListenerResolved(generation, now), "Programmed");
  }

  /** The whole of what `MarkAccepted` says about a Gateway and its listeners. */
  predicate AcceptedThroughout(gw: Gateway, s: GatewayStatus) {
    && AcceptedWell(gw.status.conditions, s.conditions, "Accepted by appnet-gateway.controller", gw.generation)
    && |s.listeners| == |gw.listeners|
    && forall i :: 0 <= i < |gw.listeners| ==> AcceptedListener(gw, gw.listeners[i], s.listeners[i])
  }

  predicate AcceptedListener(gw: Gateway, l: Listener, ls: ListenerStatus) {
    && ls.name == l.name && Advertises(ls, l.protocol) && ls.attachedRoutes == PreviousStatus(gw, l.name).attachedRoutes
    && AcceptedWell(PreviousConditions(gw, l.name), ls.conditions, "Accepted", gw.generation)
    && Shows(ls.conditions, "ResolvedRefs", ConditionTrue, "ResolvedRefs", "Resolved listener references",
             gw.generation)
  }

  lemma AcceptedIsThorough(gw: Gateway, now: int)
    ensures AcceptedThroughout(gw, AcceptedStatus(gw, now))
  {
    AcceptedWellGateway(gw.status.conditions, gw.generation, now);
    var s := AcceptedStatus(gw, now);
    forall i | 0 <= i < |gw.listeners| ensures AcceptedListener(gw, gw.listeners[i], s.listeners[i]) {
      LastNamedHasName(gw.status.listeners, gw.listeners[i].name);
      AcceptedWellListener(PreviousConditions(gw, gw.listeners[i].name), gw.generation, now);
    }
  }

  /** `MarkAccepted` accepts the Gateway and every listener, resolves the references of every
      listener, re-establishes everything about Programmed, whatever it read, and leaves
      the conditions of every other type, the Gateway's and each listener's, as they were. */
  lemma AcceptedStatusFacts(gw: Gateway, now: int)
    requires UniqueStatus(gw.status)
    ensures var s := AcceptedStatus(gw, now);
      && UniqueStatus(s) && Mirrors(gw, s) && s.addresses == gw.status.addresses
      && ProgrammedIsCurrent(s.conditions, gw.generation)
      && (forall i :: 0 <= i < |s.listeners| ==> ProgrammedIsCurrent(s.listeners[i].conditions, gw.generation))
      && AcceptedThroughout(gw, s)
      && (forall k :: k != ACCEPTED && k != PROGRAMMED ==> Lookup(s.conditions, k) == Lookup(gw.status.conditions, k))
      && (forall i, k :: 0 <= i < |s.listeners| && !OwnListenerKind(k) ==>
            Lookup(s.listeners[i].conditions, k) == Lookup(PreviousConditions(gw, s.listeners[i].name), k))
  {
    AcceptConditionsFacts(gw.status.conditions, gw.generation, now);
    AcceptedIsThorough(gw, now);
    var s := AcceptedStatus(gw, now);
    forall i | 0 <= i < |gw.listeners|
      ensures s.listeners[i].name == gw.listeners[i].name
      ensures UniqueKinds(s.listeners[i].conditions)
      ensures ProgrammedIsCurrent(s.listeners[i].conditions, gw.generation)
      ensures forall k :: !OwnListenerKind(k) ==>
        Lookup(s.listeners[i].conditions, k) == Lookup(PreviousConditions(gw, gw.listeners[i].name), k)
    {
      LastNamedHasName(gw.status.listeners, gw.listeners[i].name);
      var name := gw.listeners[i].name;
      var ls := LastNamed(gw.status.listeners, name).GetOr(ListenerStatus(name, [], 0, []));
      AcceptListenerFacts(ls.conditions, gw.generation, now);
    }
  }

  /** `MarkProgrammed` claims the generation it read, for the Gateway and every listener
      status there is, and touches nothing but Programmed and the addresses. */
  lemma ProgrammedStatusFacts(gw: Gateway, addresses: seq<Address>, now: int)
    ensures var s, before := ProgrammedStatus(gw, addresses, now), gw.status;
      && Shows(s.conditions, "Programmed", ConditionTrue, "Programmed", "agentgateway data plane ready", gw.generation)
      && Others(s.conditions, PROGRAMMED) == Others(before.conditions, PROGRAMMED)
      && s.addresses == (if addresses == [] then before.addresses else addresses)
      && |s.listeners| == |before.listeners|
      && forall i :: 0 <= i < |s.listeners| ==>
        && Shows(s.listeners[i].conditions, "Programmed", ConditionTrue, "Programmed", "Programmed", gw.generation)
        && s.listeners[i] == before.listeners[i].(conditions := s.listeners[i].conditions)
        && Others(s.listeners[i].conditions, PROGRAMMED) == Others(before.listeners[i].conditions, PROGRAMMED)
  {
    var c := GatewayProgrammed(gw.generation, now);
    LookupOfUpsert(gw.status.conditions, c, PROGRAMMED);
    UpsertFrame(gw.status.conditions, c);
    var d := ListenerProgrammed(gw.generation, now);
    forall i | 0 <= i < |gw.status.listeners|
      ensures Shows(Upsert(gw.status.listeners[i].conditions, d), "Programmed", ConditionTrue, "Programmed",
                    "Programmed", gw.generation)
      ensures Others(Upsert(gw.status.listeners[i].conditions, d), PROGRAMMED) ==
        Others(gw.status.listeners[i].conditions, PROGRAMMED)
    {
      LookupOfUpsert(gw.status.listeners[i].conditions, d, PROGRAMMED);
      UpsertFrame(gw.status.listeners[i].conditions, d);
    }
  }

  /** `MarkListenerResolvedRefs` changes ResolvedRefs of the first listener status with the
      name and nothing else. */
  lemma ResolvedRefsStatusFacts(gw: Gateway, name: string, status: ConditionStatus, reason: string, message: string,
                                now: int, i: nat)
    requires i <= |gw.status.listeners| && forall k :: 0 <= k < i ==> gw.status.listeners[k].name != name
    requires i < |gw.status.listeners| ==> gw.status.listeners[i].name == name
    ensures var s, before := ResolvedRefsStatus(gw, name, status, reason, message, now), gw.status;
      && s.conditions == before.conditions && s.addresses == before.addresses && |s.listeners| == |before.listeners|
      && (forall k :: 0 <= k < |s.listeners| && k != i ==> s.listeners[k] == before.listeners[k])
      && (i < |s.listeners| ==>
            && Shows(s.listeners[i].conditions, "ResolvedRefs", status, reason, message, gw.generation)
            && Others(s.listeners[i].conditions, RESOLVED_REFS) ==
              Others(before.listeners[i].conditions, RESOLVED_REFS))
  {
    var c := Condition(RESOLVED_REFS, status, reason, message, now, gw.generation);
    UpsertFirstNamedAt(gw.status.listeners, name, c, i);
    if i < |gw.status.listeners| {
      LookupOfUpsert(gw.status.listeners[i].conditions, c, RESOLVED_REFS);
      UpsertFrame(gw.status.listeners[i].conditions, c);
    }
  }

  // ----- a successful reconcile is a fixpoint -----

  /** Every entry of the status is what `MarkAccepted` and `MarkProgrammed` would make of
      it: both conditions settled, for the Gateway and for each listener. */
  predicate FullySettled(gw: Gateway, addresses: seq<Address>) {
    && Mirrors(gw, gw.status)
    && Settled(gw.status.conditions, GatewayAccepted(gw.generation, 0))
    && Settled(gw.status.conditions, GatewayProgrammed(gw.generation, 0))
    && (addresses != [] ==> gw.status.addresses == addresses)
    && (forall i :: 0 <= i < |gw.listeners| ==> SettledListener(gw.status.listeners[i], gw.generation))
    && forall i, j :: 0 <= i < j < |gw.listeners| && gw.listeners[i].name == gw.listeners[j].name ==>
      gw.status.listeners[i].(supportedKinds := []) == gw.status.listeners[j].(supportedKinds := [])
  }

  predicate SettledListener(ls: ListenerStatus, generation: int) {
    && Settled(ls.conditions, ListenerAccepted(generation, 0))
    && Settled(ls.conditions, ListenerResolved(generation, 0))
    && Settled(ls.conditions, ListenerProgrammed(generation, 0))
  }

  lemma {:induction false} LastNamedIndex(ls: seq<ListenerStatus>, i: nat) returns (j: nat)
    requires i < |ls|
    ensures i <= j < |ls| && ls[j].name == ls[i].name && LastNamed(ls, ls[i].name) == Some(ls[j])
  {
    if ls[|ls| - 1].name == ls[i].name {
      j := |ls| - 1;
    } else {
      j := LastNamedIndex(ls[..|ls| - 1], i);
    }
  }

  lemma SettledListenerStays(cs: seq<Condition>, generation: int, now: int)
    requires Settled(cs, ListenerAccepted(generation, 0)) && Settled(cs, ListenerResolved(generation, 0))
    requires ProgrammedAt(cs, generation)
    ensures AcceptListenerConditions(cs, generation, now) == cs
  {
    UpsertNoop(cs, ListenerAccepted(generation, now));
    UpsertNoop(cs, ListenerResolved(generation, now));
  }

  lemma FullySettledStays(gw: Gateway, addresses: seq<Address>, now: int)
    requires FullySettled(gw, addresses)
    ensures AcceptedStatus(gw, now) == gw.status
    ensures ProgrammedStatus(gw, addresses, now) == gw.status
  {
    UpsertNoop(gw.status.conditions, GatewayAccepted(gw.generation, now));
    UpsertNoop(gw.status.conditions, GatewayProgrammed(gw.generation, now));
    var a, p := AcceptedStatus(gw, now), ProgrammedStatus(gw, addresses, now);
    forall i | 0 <= i < |gw.listeners|
      ensures a.listeners[i] == gw.status.listeners[i] && p.listeners[i] == gw.status.listeners[i]
    {
      var j := LastNamedIndex(gw.status.listeners, i);
      assert gw.status.listeners[i].(supportedKinds := []) == gw.status.listeners[j].(supportedKinds := []);
      SettledListenerStays(gw.status.listeners[j].conditions, gw.generation, now);
      UpsertNoop(gw.status.listeners[i].conditions, ListenerProgrammed(gw.generation, now));
    }
    assert a.listeners == gw.status.listeners;
    assert p.listeners == gw.status.listeners;
  }

  lemma AcceptThenProgramListener(cs: seq<Condition>, generation: int, now1: int, now2: int)
    ensures var r := Upsert(AcceptListenerConditions(cs, generation, now1), ListenerProgrammed(generation, now2));
      && Settled(r, ListenerAccepted(generation, 0)) && Settled(r, ListenerResolved(generation, 0))
      && Settled(r, ListenerProgrammed(generation, 0))
  {
    var a := AcceptListenerConditions(cs, generation, now1);
    AcceptListenerFacts(cs, generation, now1);
    UpsertKeepsSettled(a, ListenerProgrammed(generation, now2), ListenerAccepted(generation, 0));
    UpsertKeepsSettled(a, ListenerProgrammed(generation, now2), ListenerResolved(generation, 0));
    UpsertSettles(a, ListenerProgrammed(generation, now2), ListenerProgrammed(generation, 0));
  }

  function Accept(gw: Gateway, now: int): Gateway {
    gw.(status := AcceptedStatus(gw, now))
  }

  function Program(gw: Gateway, addresses: seq<Address>, now: int): Gateway {
    gw.(status := ProgrammedStatus(gw, addresses, now))
  }

  lemma AcceptThenProgramSettles(gw: Gateway, addresses: seq<Address>, now1: int, now2: int)
    ensures FullySettled(Program(Accept(gw, now1), addresses, now2), addresses)
  {
    var a := Accept(gw, now1);
    var r := Program(a, addresses, now2);
    AcceptConditionsFacts(gw.status.conditions, gw.generation, now1);
    UpsertKeepsSettled(a.status.conditions, GatewayProgrammed(gw.generation, now2), GatewayAccepted(gw.generation, 0));
    UpsertSettles(a.status.conditions, GatewayProgrammed(gw.generation, now2), GatewayProgrammed(gw.generation, 0));
    forall i | 0 <= i < |gw.listeners|
      ensures SettledListener(r.status.listeners[i], gw.generation)
      ensures r.status.listeners[i].name == gw.listeners[i].name
    {
      LastNamedHasName(gw.status.listeners, gw.listeners[i].name);
      var name := gw.listeners[i].name;
      var ls := LastNamed(gw.status.listeners, name).GetOr(ListenerStatus(name, [], 0, []));
      AcceptThenProgramListener(ls.conditions, gw.generation, now1, now2);
    }
  }

  /** A successful reconcile is a fixpoint: over an unchanged spec, the next
      `MarkAccepted` and `MarkProgrammed` write nothing, at any later times, whatever
      status the first one found and even with repeated listener names. */
  lemma SuccessIsFixpoint(gw: Gateway, addresses: seq<Address>, now1: int, now2: int, now3: int, now4: int)
    ensures var done := Program(Accept(gw, now1), addresses, now2);
      Accept(done, now3) == done && Program(done, addresses, now4) == done
  {
    AcceptThenProgramSettles(gw, addresses, now1, now2);
    FullySettledStays(Program(Accept(gw, now1), addresses, now2), addresses, now3);
    FullySettledStays(Program(Accept(gw, now1), addresses, now2), addresses, now4);
  }
}
