/** Route status end to end: `routeParentStatuses` and the retry body of the
    `mark...RoutesAccepted` functions. */
module RouteStatuses {
  import opened GatewayApi
  import opened Conditions
  import opened RouteAcceptance
  import opened RouteParents

  datatype Route = Route(
    namespace: string,
    generation: int,
    kind: RouteKind,
    parentRefs: seq<ParentRef>,
    hostnames: seq<string>,
    backendRefs: seq<BackendRef>,
    parents: seq<ParentStatus>)

  function QueryFor(route: Route, gw: Gateway, ref: ParentRef): Query {
    Query(ref, route.namespace, route.hostnames, gw.key.namespace, route.kind)
  }

  function ConditionFor(kind: string, v: Verdict, generation: int, now: int): Condition {
    Condition(kind, v.status, v.reason, v.message, now, generation)
  }

  function Entry(route: Route, gw: Gateway, ref: ParentRef, accepted: Verdict, resolved: Verdict,
                 now: int): ParentStatus {
    ParentStatus(Normalize(ref, gw.key.namespace), CONTROLLER_NAME,
      [ConditionFor("Accepted", accepted, route.generation, now),
       ConditionFor("ResolvedRefs", resolved, route.generation, now)])
  }

  /** One entry per matching parentRef, in order; `None` when a lookup failed. */
  function Entries(w: Snapshot, route: Route, gw: Gateway, refs: seq<ParentRef>, resolved: Verdict,
                   now: int): Option<seq<ParentStatus>> {
    if refs == [] then Some([])
    else
      var rest := Entries(w, route, gw, refs[1..], resolved, now);
      if !RefMatches(refs[0], route.namespace, gw.key) then rest
      else
        var accepted := Attachment(w, gw.listeners, QueryFor(route, gw, refs[0]));
        if accepted.None? || rest.None? then None
        else Some([Entry(route, gw, refs[0], accepted.value, resolved, now)] + rest.value)
  }

  function ParentsFor(w: Snapshot, route: Route, gw: Gateway, now: int): Option<seq<ParentStatus>> {
    var resolved := Resolution(w, route.namespace, route.kind, route.backendRefs);
    if resolved.None? then None else Entries(w, route, gw, route.parentRefs, resolved.value, now)
  }

  lemma {:induction false} EntriesSplit(w: Snapshot, route: Route, gw: Gateway, a: seq<ParentRef>, b: seq<ParentRef>,
                                        resolved: Verdict, now: int)
    ensures var l, r := Entries(w, route, gw, a, resolved, now), Entries(w, route, gw, b, resolved, now);
      Entries(w, route, gw, a + b, resolved, now) ==
      if l.None? || r.None? then None else Some(l.value + r.value)
  {
    if a == [] {
      assert a + b == b;
      var r := Entries(w, route, gw, b, resolved, now);
      if r.Some? { assert [] + r.value == r.value; }
    } else {
      assert (a + b)[1..] == a[1..] + b && (a + b)[0] == a[0];
      EntriesSplit(w, route, gw, a[1..], b, resolved, now);
      var l, r := Entries(w, route, gw, a[1..], resolved, now), Entries(w, route, gw, b, resolved, now);
      if l.Some? && r.Some? {
        forall e: ParentStatus ensures [e] + (l.value + r.value) == [e] + l.value + r.value {}
      }
    }
  }

  lemma EntriesAppend(w: Snapshot, route: Route, gw: Gateway, refs: seq<ParentRef>, i: nat, resolved: Verdict, now: int,
                      parents: seq<ParentStatus>)
    requires i < |refs| && Entries(w, route, gw, refs[..i], resolved, now) == Some(parents)
    ensures Entries(w, route, gw, refs[..i + 1], resolved, now) ==
      (if !RefMatches(refs[i], route.namespace, gw.key) then Some(parents)
       else match Attachment(w, gw.listeners, QueryFor(route, gw, refs[i]))
         case None => None
         case Some(accepted) => Some(parents + [Entry(route, gw, refs[i], accepted, resolved, now)]))
  {
    var one := [refs[i]];
    assert refs[..i + 1] == refs[..i] + one;
    EntriesSplit(w, route, gw, refs[..i], one, resolved, now);
    assert one[1..] == [] && Entries(w, route, gw, one[1..], resolved, now) == Some([]);
    assert parents + [] == parents;
    var accepted := Attachment(w, gw.listeners, QueryFor(route, gw, refs[i]));
    if accepted.Some? {
      var e := Entry(route, gw, refs[i], accepted.value, resolved, now);
      assert [e] + [] == [e];
    }
  }

  lemma EntriesFail(w: Snapshot, route: Route, gw: Gateway, refs: seq<ParentRef>, n: nat, resolved: Verdict, now: int)
    requires n <= |refs| && Entries(w, route, gw, refs[..n], resolved, now) == None
    ensures Entries(w, route, gw, refs, resolved, now) == None
  {
    assert refs == refs[..n] + refs[n..];
    EntriesSplit(w, route, gw, refs[..n], refs[n..], resolved, now);
  }

  // ----- what the result says, entry by entry -----

  /** The parentRefs that name the Gateway, in order. */
  function Matching(refs: seq<ParentRef>, routeNamespace: string, gw: NamespacedName): seq<ParentRef> {
    if refs == [] then []
    else (if RefMatches(refs[0], routeNamespace, gw) then [refs[0]] else []) + Matching(refs[1..], routeNamespace, gw)
  }

  predicate AllBackendsOk(w: Snapshot, route: Route) {
    forall k :: 0 <= k < |route.backendRefs| ==>
      CheckBackend(w, route.namespace, route.kind, route.backendRefs[k]) == BackendOk
  }

  /** Backend `k` is the first that is not ok, and this is what is wrong with it. */
  predicate FirstFinding(w: Snapshot, route: Route, k: int, c: BackendCheck) {
    && 0 <= k < |route.backendRefs| && c != BackendOk
    && CheckBackend(w, route.namespace, route.kind, route.backendRefs[k]) == c
    && forall m :: 0 <= m < k ==> CheckBackend(w, route.namespace, route.kind, route.backendRefs[m]) == BackendOk
  }

  function VerdictOf(c: Condition): Verdict {
    Verdict(c.status, c.reason, c.message)
  }

  /** ResolvedRefs says that every backend is ok, or what is wrong with the first that is not. */
  ghost predicate ResolvedIsExact(w: Snapshot, route: Route, c: Condition) {
    && c.observedGeneration == route.generation
    && (c.status == ConditionTrue <==> AllBackendsOk(w, route))
    && (c.status == ConditionTrue ==> c.reason == "ResolvedRefs")
    && (c.status != ConditionTrue ==> exists k :: FirstFinding(w, route, k, BackendBad(VerdictOf(c))))
  }

  /** The entry for a parentRef: the reference spelled out, and under each of the two types
      the finding that belongs there, at the route's generation. */
  ghost predicate EntryIsExact(w: Snapshot, route: Route, gw: Gateway, ref: ParentRef, p: ParentStatus) {
    var q := Query(ref, route.namespace, route.hostnames, gw.key.namespace, route.kind);
    var accepted, resolved := Lookup(p.conditions, "Accepted"), Lookup(p.conditions, "ResolvedRefs");
    && p.parentRef == ref.(group := Some("gateway.networking.k8s.io"), kind := Some("Gateway"),
                           namespace := Some(gw.key.namespace))
    && p.controllerName == "gateway.azure.com/appnet-gateway.controller" && |p.conditions| == 2
    && accepted.Some? && resolved.Some? && accepted.value.observedGeneration == route.generation
    && OutcomeIsExact(w, gw.listeners, q, Some(VerdictOf(accepted.value)))
    && ResolvedIsExact(w, route, resolved.value)
  }

  lemma {:induction false} ResolutionIs(w: Snapshot, namespace: string, kind: RouteKind, refs: seq<BackendRef>, k: nat)
    requires k <= |refs| && forall m :: 0 <= m < k ==> CheckBackend(w, namespace, kind, refs[m]) == BackendOk
    ensures k == |refs| ==> Resolution(w, namespace, kind, refs) == Some(RESOLVED_VERDICT)
    ensures k < |refs| ==> match CheckBackend(w, namespace, kind, refs[k])
      case BackendBad(v) => Resolution(w, namespace, kind, refs) == Some(v)
      case BackendError => Resolution(w, namespace, kind, refs) == None
      case BackendOk => true
  {
    if k > 0 {
      ResolutionIs(w, namespace, kind, refs[1..], k - 1);
    }
  }

  lemma FindFirstBad(w: Snapshot, route: Route) returns (k: nat)
    ensures k <= |route.backendRefs|
    ensures forall m :: 0 <= m < k ==> CheckBackend(w, route.namespace, route.kind, route.backendRefs[m]) == BackendOk
    ensures k < |route.backendRefs| ==>
      CheckBackend(w, route.namespace, route.kind, route.backendRefs[k]) != BackendOk
  {
    k := 0;
    while k < |route.backendRefs| && CheckBackend(w, route.namespace, route.kind, route.backendRefs[k]) == BackendOk
      invariant k <= |route.backendRefs|
      invariant forall m :: 0 <= m < k ==>
        CheckBackend(w, route.namespace, route.kind, route.backendRefs[m]) == BackendOk
    {
      k := k + 1;
    }
  }

  lemma BadIsFalse(w: Snapshot, namespace: string, kind: RouteKind, ref: BackendRef)
    ensures CheckBackend(w, namespace, kind, ref).BackendBad? ==>
      CheckBackend(w, namespace, kind, ref).verdict.status == ConditionFalse
  {
  }

  lemma ResolvedCondition(w: Snapshot, route: Route, now: int)
    ensures var resolved := Resolution(w, route.namespace, route.kind, route.backendRefs);
      && (resolved == None <==> exists k :: FirstFinding(w, route, k, BackendError))
      && (resolved.Some? ==>
            ResolvedIsExact(w, route, ConditionFor("ResolvedRefs", resolved.value, route.generation, now)))
  {
    var k := FindFirstBad(w, route);
    ResolutionIs(w, route.namespace, route.kind, route.backendRefs, k);
    if k < |route.backendRefs| {
      var c := CheckBackend(w, route.namespace, route.kind, route.backendRefs[k]);
      assert FirstFinding(w, route, k, c);
      if c.BackendBad? {
        assert VerdictOf(ConditionFor("ResolvedRefs", c.verdict, route.generation, now)) == c.verdict;
      }
      BadIsFalse(w, route.namespace, route.kind, route.backendRefs[k]);
    }
  }

  lemma EntryShows(w: Snapshot, route: Route, gw: Gateway, ref: ParentRef, resolved: Verdict, now: int)
    requires Attachment(w, gw.listeners, QueryFor(route, gw, ref)).Some?
    requires ResolvedIsExact(w, route, ConditionFor("ResolvedRefs", resolved, route.generation, now))
    ensures var accepted := Attachment(w, gw.listeners, QueryFor(route, gw, ref)).value;
      EntryIsExact(w, route, gw, ref, Entry(route, gw, ref, accepted, resolved, now))
  {
    AttachmentIsExact(w, gw.listeners, QueryFor(route, gw, ref));
    var accepted := Attachment(w, gw.listeners, QueryFor(route, gw, ref)).value;
    var p := Entry(route, gw, ref, accepted, resolved, now);
    assert "Accepted"[0] != "ResolvedRefs"[0];
    assert p.conditions[1..][0] == p.conditions[1];
  }

  /** Some parentRef of the Gateway meets a listener that fails to answer before one accepts. */
  ghost predicate SomeRefFails(w: Snapshot, route: Route, gw: Gateway, refs: seq<ParentRef>) {
    exists i :: 0 <= i < |refs| && RefFails(w, route, gw, refs[i])
  }

  ghost predicate RefFails(w: Snapshot, route: Route, gw: Gateway, ref: ParentRef) {
    var q := Query(ref, route.namespace, route.hostnames, gw.key.namespace, route.kind);
    exists k :: DecidedAt(w, gw.listeners, q, k, Error)
  }

  /** The result has one exact entry per parentRef that names the Gateway, in order. */
  ghost predicate EntriesAreExact(w: Snapshot, route: Route, gw: Gateway, refs: seq<ParentRef>, ps: seq<ParentStatus>) {
    && |ps| == |refs| && forall i :: 0 <= i < |refs| ==> EntryIsExact(w, route, gw, refs[i], ps[i])
  }

  lemma {:induction false} EntriesExact(w: Snapshot, route: Route, gw: Gateway, refs: seq<ParentRef>, resolved: Verdict,
                                        now: int)
    requires ResolvedIsExact(w, route, ConditionFor("ResolvedRefs", resolved, route.generation, now))
    ensures var r, matching := Entries(w, route, gw, refs, resolved, now), Matching(refs, route.namespace, gw.key);
      && (r == None <==> SomeRefFails(w, route, gw, matching))
      && (r.Some? ==> EntriesAreExact(w, route, gw, matching, r.value))
  {
    if refs != [] {
      var rest := Matching(refs[1..], route.namespace, gw.key);
      EntriesExact(w, route, gw, refs[1..], resolved, now);
      if RefMatches(refs[0], route.namespace, gw.key) {
        EntriesExactCons(w, route, gw, refs[0], rest, Entries(w, route, gw, refs[1..], resolved, now), resolved, now);
      } else {
        assert Matching(refs, route.namespace, gw.key) == rest;
      }
    }
  }

  lemma AttachmentFails(w: Snapshot, route: Route, gw: Gateway, ref: ParentRef)
    ensures Attachment(w, gw.listeners, QueryFor(route, gw, ref)) == None <==> RefFails(w, route, gw, ref)
  {
    AttachmentIsExact(w, gw.listeners, QueryFor(route, gw, ref));
  }

  /** One more matching reference in front. */
  lemma EntriesExactCons(w: Snapshot, route: Route, gw: Gateway, ref: ParentRef, rest: seq<ParentRef>,
                         entries: Option<seq<ParentStatus>>, resolved: Verdict, now: int)
    requires ResolvedIsExact(w, route, ConditionFor("ResolvedRefs", resolved, route.generation, now))
    requires entries == None <==> SomeRefFails(w, route, gw, rest)
    requires entries.Some? ==> EntriesAreExact(w, route, gw, rest, entries.value)
    ensures var accepted := Attachment(w, gw.listeners, QueryFor(route, gw, ref));
      && (accepted == None || entries == None <==> SomeRefFails(w, route, gw, [ref] + rest))
      && (accepted.Some? && entries.Some? ==>
            EntriesAreExact(w, route, gw, [ref] + rest,
                            [Entry(route, gw, ref, accepted.value, resolved, now)] + entries.value))
  {
    SomeRefFailsCons(w, route, gw, ref, rest);
    AttachmentFails(w, route, gw, ref);
    var accepted := Attachment(w, gw.listeners, QueryFor(route, gw, ref));
    if accepted.Some? && entries.Some? {
      EntryShows(w, route, gw, ref, resolved, now);
      ExactCons(w, route, gw, ref, rest, Entry(route, gw, ref, accepted.value, resolved, now), entries.value);
    }
  }

  lemma ExactCons(w: Snapshot, route: Route, gw: Gateway, ref: ParentRef, rest: seq<ParentRef>, p: ParentStatus,
                  ps: seq<ParentStatus>)
    requires EntryIsExact(w, route, gw, ref, p) && EntriesAreExact(w, route, gw, rest, ps)
    ensures EntriesAreExact(w, route, gw, [ref] + rest, [p] + ps)
  {
    var refs, entries := [ref] + rest, [p] + ps;
    forall i | 0 <= i < |refs| ensures EntryIsExact(w, route, gw, refs[i], entries[i]) {
      if i > 0 {
        assert refs[i] == rest[i - 1] && entries[i] == ps[i - 1];
      }
    }
  }

  lemma SomeRefFailsCons(w: Snapshot, route: Route, gw: Gateway, ref: ParentRef, refs: seq<ParentRef>)
    ensures SomeRefFails(w, route, gw, [ref] + refs) <==>
      RefFails(w, route, gw, ref) || SomeRefFails(w, route, gw, refs)
  {
    if RefFails(w, route, gw, ref) {
      assert ([ref] + refs)[0] == ref;
    }
    if SomeRefFails(w, route, gw, refs) {
      var i :| 0 <= i < |refs| && RefFails(w, route, gw, refs[i]);
      assert ([ref] + refs)[i + 1] == refs[i];
    }
  }

  /** The whole result: an error exactly if a backend or a listener lookup failed where it
      mattered, and otherwise the exact entries. */
  lemma ParentsAreExact(w: Snapshot, route: Route, gw: Gateway, now: int)
    ensures var r, matching := ParentsFor(w, route, gw, now), Matching(route.parentRefs, route.namespace, gw.key);
      && (r == None <==>
            (exists k :: FirstFinding(w, route, k, BackendError)) || SomeRefFails(w, route, gw, matching))
      && (r.Some? ==> EntriesAreExact(w, route, gw, matching, r.value))
  {
    ResolvedCondition(w, route, now);
    var resolved := Resolution(w, route.namespace, route.kind, route.backendRefs);
    if resolved.Some? {
      EntriesExact(w, route, gw, route.parentRefs, resolved.value, now);
    }
  }

  /** `routeParentStatuses`: resolve the backends once, then one pass over the parentRefs. */
  method RouteParentStatuses(w: Snapshot, route: Route, gw: Gateway, now: int) returns (r: Option<seq<ParentStatus>>)
    ensures r == ParentsFor(w, route, gw, now)
    ensures r.Some? ==> EntriesAreExact(w, route, gw, Matching(route.parentRefs, route.namespace, gw.key), r.value)
  {
    ParentsAreExact(w, route, gw, now);
    var resolved := BackendRefsResolved(w, route.namespace, route.kind, route.backendRefs);
    if resolved.None? {
      return None;
    }
    var parents: seq<ParentStatus> := [];
    var refs := route.parentRefs;
    for i := 0 to |refs|
      invariant Entries(w, route, gw, refs[..i], resolved.value, now) == Some(parents)
    {
      EntriesAppend(w, route, gw, refs, i, resolved.value, now, parents);
      if !RefMatches(refs[i], route.namespace, gw.key) {
        continue;
      }
      var accepted := RouteAcceptedByGateway(w, gw.listeners, QueryFor(route, gw, refs[i]));
      if accepted.None? {
        EntriesFail(w, route, gw, refs, i + 1, resolved.value, now);
        return None;
      }
      parents := parents + [Entry(route, gw, refs[i], accepted.value, resolved.value, now)];
    }
    assert refs[..|refs|] == refs;
    r := Some(parents);
  }

  // ----- what the entries are -----

  lemma {:induction false} AttachmentIgnoresNamespace(w: Snapshot, listeners: seq<Listener>, q: Query,
                                                      namespace: string)
    ensures var n := q.(parentRef := Normalize(q.parentRef, namespace));
      && Attachment(w, listeners, q) == Attachment(w, listeners, n)
      && FirstDecisive(w, listeners, q) == FirstDecisive(w, listeners, n)
      && PromisedVerdict(w, listeners, q) == PromisedVerdict(w, listeners, n)
  {
    var n := q.(parentRef := Normalize(q.parentRef, namespace));
    forall l: Listener, a: Answer
      ensures Selected(l, q) == Selected(l, n) && HostnameFits(l, q) == HostnameFits(l, n)
      ensures Says(w, l, q, a) == Says(w, l, n, a)
    {
      assert SameNamespace(q) == SameNamespace(n);
    }
    if listeners != [] {
      AttachmentIgnoresNamespace(w, listeners[1..], q, namespace);
    }
  }

  /** Each entry is a function of its normalised reference, so repeated references agree. */
  predicate EntryOf(w: Snapshot, route: Route, gw: Gateway, p: ParentStatus, resolved: Verdict, now: int) {
    var accepted := Attachment(w, gw.listeners, QueryFor(route, gw, p.parentRef));
    accepted.Some? && p == Entry(route, gw, p.parentRef, accepted.value, resolved, now)
  }

  lemma {:induction false} EntriesAre(w: Snapshot, route: Route, gw: Gateway, refs: seq<ParentRef>, resolved: Verdict,
                                      now: int, now': int)
    requires Entries(w, route, gw, refs, resolved, now).Some?
    ensures Entries(w, route, gw, refs, resolved, now').Some?
    ensures var ps, ps' := Entries(w, route, gw, refs, resolved, now).value,
      Entries(w, route, gw, refs, resolved, now').value;
      && ComputedFor(ps, gw.key) && |ps| == |ps'|
      && forall i :: 0 <= i < |ps| ==>
        && EntryOf(w, route, gw, ps[i], resolved, now) && EntryOf(w, route, gw, ps'[i], resolved, now')
        && ps[i].parentRef == ps'[i].parentRef
  {
    if refs != [] {
      EntriesAre(w, route, gw, refs[1..], resolved, now, now');
      if RefMatches(refs[0], route.namespace, gw.key) {
        AttachmentIgnoresNamespace(w, gw.listeners, QueryFor(route, gw, refs[0]), gw.key.namespace);
      }
    }
  }

  lemma EntriesAgree(w: Snapshot, route: Route, gw: Gateway, a: ParentStatus, b: ParentStatus, resolved: Verdict,
                     now: int, now': int)
    requires EntryOf(w, route, gw, a, resolved, now) && EntryOf(w, route, gw, b, resolved, now')
    requires a.parentRef == b.parentRef
    ensures AllAlike(a.conditions, b.conditions) && UniqueKinds(a.conditions)
    ensures now == now' ==> a == b
  {
    assert "Accepted"[0] != "ResolvedRefs"[0];
  }

  lemma ParentsAgree(w: Snapshot, route: Route, gw: Gateway, now: int, now': int)
    requires ParentsFor(w, route, gw, now).Some?
    ensures ParentsFor(w, route, gw, now').Some?
    ensures var ps, ps' := ParentsFor(w, route, gw, now).value, ParentsFor(w, route, gw, now').value;
      ComputedFor(ps, gw.key) && ComputedFor(ps', gw.key) && UniqueConditions(ps) && SameButTimes(ps, ps')
  {
    var resolved := Resolution(w, route.namespace, route.kind, route.backendRefs).value;
    EntriesAre(w, route, gw, route.parentRefs, resolved, now, now');
    EntriesAre(w, route, gw, route.parentRefs, resolved, now', now);
    var ps, ps' := ParentsFor(w, route, gw, now).value, ParentsFor(w, route, gw, now').value;
    forall i | 0 <= i < |ps| ensures AllAlike(ps[i].conditions, ps'[i].conditions) && UniqueKinds(ps[i].conditions) {
      EntriesAgree(w, route, gw, ps[i], ps'[i], resolved, now, now');
    }
    forall i, j | 0 <= i < |ps| && 0 <= j < |ps| && ps[i].parentRef == ps[j].parentRef
      ensures ps[i].conditions == ps[j].conditions
    {
      EntriesAgree(w, route, gw, ps[i], ps[j], resolved, now, now);
    }
  }

  /** The retry body: the route with its new parents, or `None` on a lookup error. */
  function MarkRoute(w: Snapshot, route: Route, gw: Gateway, now: int): Option<Route> {
    match ParentsFor(w, route, gw, now)
    case None => None
    case Some(parents) => Some(route.(parents := Merge(route.parents, gw.key, parents)))
  }

  /** Marking a route again over an unchanged cluster writes nothing, whenever it happens. */
  lemma MarkRouteFixpoint(w: Snapshot, route: Route, gw: Gateway, now: int, later: int)
    requires MarkRoute(w, route, gw, now).Some?
    ensures MarkRoute(w, MarkRoute(w, route, gw, now).value, gw, later) == MarkRoute(w, route, gw, now)
  {
    ParentsAgree(w, route, gw, now, later);
    var once := MarkRoute(w, route, gw, now).value;
    SameSpec(w, route, once, gw, route.parentRefs, later);
    MergeFixpoint(route.parents, gw.key, ParentsFor(w, route, gw, now).value, ParentsFor(w, route, gw, later).value);
  }

  lemma {:induction false} SameSpec(w: Snapshot, a: Route, b: Route, gw: Gateway, refs: seq<ParentRef>, now: int)
    requires a.(parents := []) == b.(parents := [])
    ensures forall v :: Entries(w, a, gw, refs, v, now) == Entries(w, b, gw, refs, v, now)
  {
    if refs != [] {
      SameSpec(w, a, b, gw, refs[1..], now);
      assert QueryFor(a, gw, refs[0]) == QueryFor(b, gw, refs[0]);
    }
  }

  /** A snapshot without lookup errors never makes marking fail, and under Accepted each entry
      then shows the promised, order-free verdict for its reference. */
  lemma EntriesWithoutErrors(w: Snapshot, route: Route, gw: Gateway, refs: seq<ParentRef>, resolved: Verdict, now: int)
    requires forall i :: 0 <= i < |refs| ==> NoLookupError(w, gw.listeners, QueryFor(route, gw, refs[i]))
    ensures var r, matching := Entries(w, route, gw, refs, resolved, now), Matching(refs, route.namespace, gw.key);
      r.Some? && |r.value| == |matching| &&
      forall i :: 0 <= i < |matching| ==> ShowsPromised(w, route, gw, matching[i], r.value[i])
  {
    EntriesArePromised(w, route, gw, refs, resolved, now);
    PromisedShows(w, route, gw, refs, resolved, now);
  }

  predicate ShowsPromised(w: Snapshot, route: Route, gw: Gateway, ref: ParentRef, p: ParentStatus) {
    var q := Query(ref, route.namespace, route.hostnames, gw.key.namespace, route.kind);
    var v := PromisedVerdict(w, gw.listeners, q);
    Shows(p.conditions, "Accepted", v.status, v.reason, v.message, route.generation)
  }

  lemma {:induction false} PromisedShows(w: Snapshot, route: Route, gw: Gateway, refs: seq<ParentRef>,
                                         resolved: Verdict, now: int)
    ensures var ps, matching := Promised(w, route, gw, refs, resolved, now), Matching(refs, route.namespace, gw.key);
      |ps| == |matching| && forall i :: 0 <= i < |matching| ==> ShowsPromised(w, route, gw, matching[i], ps[i])
  {
    if refs != [] {
      PromisedShows(w, route, gw, refs[1..], resolved, now);
    }
  }

  lemma {:induction false} EntriesArePromised(w: Snapshot, route: Route, gw: Gateway, refs: seq<ParentRef>,
                                                resolved: Verdict, now: int)
    requires forall i :: 0 <= i < |refs| ==> NoLookupError(w, gw.listeners, QueryFor(route, gw, refs[i]))
    ensures Entries(w, route, gw, refs, resolved, now) == Some(Promised(w, route, gw, refs, resolved, now))
  {
    if refs != [] {
      NoErrorsNoNone(w, gw.listeners, QueryFor(route, gw, refs[0]));
      EntriesArePromised(w, route, gw, refs[1..], resolved, now);
      var rest := Promised(w, route, gw, refs[1..], resolved, now);
      assert [] + rest == rest;
    }
  }

  function Promised(w: Snapshot, route: Route, gw: Gateway, refs: seq<ParentRef>, resolved: Verdict,
                    now: int): seq<ParentStatus> {
    if refs == [] then []
    else
      (if RefMatches(refs[0], route.namespace, gw.key) then
         [Entry(route, gw, refs[0], PromisedVerdict(w, gw.listeners, QueryFor(route, gw, refs[0])), resolved, now)]
       else []) + Promised(w, route, gw, refs[1..], resolved, now)
  }
}
