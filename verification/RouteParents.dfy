/** The parents list of a route's status, shared by every Gateway the route refers to and
    by every controller: filter out this Gateway's own entries, append the new ones. */
module RouteParents {
  import opened GatewayApi
  import opened Conditions

  predicate Ours(p: ParentStatus) {
    p.controllerName == CONTROLLER_NAME
  }

  /** `parentRefMatchesGateway`: an absent namespace means the route's own. */
  predicate RefMatches(ref: ParentRef, routeNamespace: string, gw: NamespacedName) {
    && ref.group.GetOr(GATEWAY_GROUP) == GATEWAY_GROUP && ref.kind.GetOr("Gateway") == "Gateway"
    && ref.namespace.GetOr(routeNamespace) == gw.namespace && ref.name == gw.name
  }

  /** A parentRef names the Gateway: by group and kind, absent or spelled out, and by
      namespace, absent meaning the route's own, and name. */
  lemma RefMatchesMeans(ref: ParentRef, routeNamespace: string, gw: NamespacedName)
    ensures RefMatches(ref, routeNamespace, gw) <==>
      && (ref.group == None || ref.group == Some("gateway.networking.k8s.io"))
      && (ref.kind == None || ref.kind == Some("Gateway"))
      && (ref.namespace == Some(gw.namespace) || (ref.namespace == None && routeNamespace == gw.namespace))
      && ref.name == gw.name
  {
  }

  /** `parentStatusReferencesGateway`: an absent namespace means the Gateway's own. */
  predicate StatusReferences(p: ParentStatus, gw: NamespacedName) {
    RefMatches(p.parentRef, gw.namespace, gw)
  }

  function Normalize(ref: ParentRef, namespace: string): ParentRef {
    ref.(group := Some(GATEWAY_GROUP), kind := Some("Gateway"), namespace := Some(namespace))
  }

  /** Parents as `routeParentStatuses` computes them for a Gateway. */
  predicate ComputedFor(parents: seq<ParentStatus>, gw: NamespacedName) {
    forall i :: 0 <= i < |parents| ==>
      && Ours(parents[i]) && parents[i].parentRef == Normalize(parents[i].parentRef, gw.namespace)
      && parents[i].parentRef.name == gw.name
  }

  /** Every matching parentRef, once normalised, is recognised by the merge's filter, and
      by no other Gateway's. */
  lemma NormalizedIsRecognised(ref: ParentRef, routeNamespace: string, gw: NamespacedName, other: NamespacedName,
                               conditions: seq<Condition>)
    requires RefMatches(ref, routeNamespace, gw)
    ensures var p := ParentStatus(Normalize(ref, gw.namespace), CONTROLLER_NAME, conditions);
      ComputedFor([p], gw) && (StatusReferences(p, other) <==> other == gw)
  {
  }

  // ----- the merge on values -----

  predicate Owned(p: ParentStatus, gw: NamespacedName) {
    Ours(p) && StatusReferences(p, gw)
  }

  function Remaining(ps: seq<ParentStatus>, gw: NamespacedName): seq<ParentStatus> {
    if ps == [] then []
    else (if Owned(ps[0], gw) then [] else [ps[0]]) + Remaining(ps[1..], gw)
  }

  function EntriesOf(ps: seq<ParentStatus>, gw: NamespacedName): seq<ParentStatus> {
    if ps == [] then []
    else (if Owned(ps[0], gw) then [ps[0]] else []) + EntriesOf(ps[1..], gw)
  }

  /** The conditions of the first entry with this parent reference and controller. */
  function Previous(ps: seq<ParentStatus>, p: ParentStatus): Option<seq<Condition>> {
    if ps == [] then None
    else if ps[0].controllerName == p.controllerName && ps[0].parentRef == p.parentRef then Some(ps[0].conditions)
    else Previous(ps[1..], p)
  }

  function Refresh(ps: seq<ParentStatus>, p: ParentStatus): ParentStatus {
    match Previous(ps, p)
    case None => p
    case Some(cs) => p.(conditions := UpsertAll(cs, p.conditions))
  }

  function RefreshAll(ps: seq<ParentStatus>, parents: seq<ParentStatus>): seq<ParentStatus> {
    seq(|parents|, i requires 0 <= i < |parents| => Refresh(ps, parents[i]))
  }

  function Merge(existing: seq<ParentStatus>, gw: NamespacedName, parents: seq<ParentStatus>): seq<ParentStatus> {
    Remaining(existing, gw) + RefreshAll(existing, parents)
  }

  // ----- the merge on Go slices -----

  /** A RouteParentStatus whose conditions are a slice. */
  datatype ParentCell = ParentCell(parentRef: ParentRef, controllerName: string, conditions: Slice)

  ghost predicate ValidCells(ps: seq<ParentCell>) {
    forall i :: 0 <= i < |ps| ==> ValidSlice(ps[i].conditions)
  }

  ghost function CellView(p: ParentCell): ParentStatus
    requires ValidSlice(p.conditions)
    reads p.conditions.backing
  {
    ParentStatus(p.parentRef, p.controllerName, View(p.conditions))
  }

  ghost function CellViews(ps: seq<ParentCell>): seq<ParentStatus>
    requires ValidCells(ps)
    reads set i | 0 <= i < |ps| :: ps[i].conditions.backing
  {
    seq(|ps|, i requires 0 <= i < |ps| && ValidSlice(ps[i].conditions)
                reads set k | 0 <= k < |ps| :: ps[k].conditions.backing => CellView(ps[i]))
  }

  lemma {:induction false} UpsertAllStep(cs: seq<Condition>, incoming: seq<Condition>, j: nat)
    requires j < |incoming|
    ensures UpsertAll(cs, incoming[..j + 1]) == Upsert(UpsertAll(cs, incoming[..j]), incoming[j])
    decreases |incoming|
  {
    if j > 0 {
      assert incoming[1..][..j] == incoming[..j + 1][1..] && incoming[1..][..j - 1] == incoming[..j][1..];
      UpsertAllStep(Upsert(cs, incoming[0]), incoming[1..], j - 1);
    } else {
      assert incoming[..1][1..] == [] && incoming[..0] == [];
      assert UpsertAll(Upsert(cs, incoming[0]), incoming[..1][1..]) == Upsert(cs, incoming[0]);
    }
  }

  /** Copy the old conditions, then upsert the new ones into the copy. */
  method RefreshConditions(prior: Slice, incoming: Slice) returns (r: Slice)
    requires ValidSlice(prior) && ValidSlice(incoming)
    ensures ValidSlice(r) && fresh(r.backing) && View(r) == UpsertAll(View(prior), View(incoming))
  {
    r := CloneSlice(prior);
    for j := 0 to incoming.len
      invariant ValidSlice(r) && fresh(r.backing)
      invariant View(r) == UpsertAll(View(prior), View(incoming)[..j])
    {
      UpsertAllStep(View(prior), View(incoming), j);
      r := UpsertCondition(r, incoming.backing[j]);
    }
    assert View(incoming)[..incoming.len] == View(incoming);
  }

  lemma {:induction false} PreviousAt(ps: seq<ParentStatus>, p: ParentStatus, k: nat)
    requires k <= |ps|
    requires forall m :: 0 <= m < k ==> !(ps[m].controllerName == p.controllerName && ps[m].parentRef == p.parentRef)
    ensures k == |ps| ==> Previous(ps, p) == None
    ensures k < |ps| && ps[k].controllerName == p.controllerName && ps[k].parentRef == p.parentRef ==>
      Previous(ps, p) == Some(ps[k].conditions)
  {
    if k > 0 {
      PreviousAt(ps[1..], p, k - 1);
    }
  }

  method RefreshCell(existing: seq<ParentCell>, p: ParentCell) returns (r: ParentCell)
    requires ValidCells(existing) && ValidSlice(p.conditions)
    ensures ValidSlice(r.conditions) && CellView(r) == Refresh(CellViews(existing), CellView(p))
    ensures r.conditions == p.conditions || fresh(r.conditions.backing)
  {
    var k := 0;
    while k < |existing| && !(existing[k].controllerName == p.controllerName && existing[k].parentRef == p.parentRef)
      invariant k <= |existing|
      invariant forall m :: 0 <= m < k ==>
        !(existing[m].controllerName == p.controllerName && existing[m].parentRef == p.parentRef)
    {
      k := k + 1;
    }
    PreviousAt(CellViews(existing), CellView(p), k);
    if k < |existing| {
      var conditions := RefreshConditions(existing[k].conditions, p.conditions);
      r := p.(conditions := conditions);
    } else {
      r := p;
    }
  }

  lemma {:induction false} RemainingAppend(ps: seq<ParentStatus>, p: ParentStatus, gw: NamespacedName)
    ensures Remaining(ps + [p], gw) == Remaining(ps, gw) + if Owned(p, gw) then [] else [p]
  {
    if ps == [] {
      assert ps + [p] == [p] && [p][1..] == [];
      assert Remaining([p][1..], gw) == [];
    } else {
      assert (ps + [p])[1..] == ps[1..] + [p];
      RemainingAppend(ps[1..], p, gw);
    }
  }

  /** The first loop: give every new entry its refreshed conditions. */
  method RefreshEntries(existing: seq<ParentCell>, parents: array<ParentCell>)
    requires ValidCells(existing) && ValidCells(parents[..])
    modifies parents
    ensures ValidCells(parents[..])
    ensures CellViews(parents[..]) == RefreshAll(old(CellViews(existing)), old(CellViews(parents[..])))
  {
    ghost var before := parents[..];
    ghost var olds := CellViews(existing);
    ghost var news := CellViews(before);
    for i := 0 to parents.Length
      invariant ValidCells(parents[..])
      invariant forall k :: i <= k < parents.Length ==> parents[k] == before[k]
      invariant forall k :: 0 <= k < i ==> CellView(parents[k]) == Refresh(olds, news[k])
    {
      var r := RefreshCell(existing, parents[i]);
      assert CellView(parents[i]) == news[i];
      parents[i] := r;
    }
  }

  /** The second loop: keep the entries that are not this Gateway's. */
  method OtherEntries(existing: seq<ParentCell>, gw: NamespacedName) returns (out: seq<ParentCell>)
    requires ValidCells(existing)
    ensures ValidCells(out) && CellViews(out) == Remaining(CellViews(existing), gw)
  {
    ghost var olds := CellViews(existing);
    out := [];
    for i := 0 to |existing|
      invariant ValidCells(out) && CellViews(out) == Remaining(olds[..i], gw)
    {
      RemainingAppend(olds[..i], olds[i], gw);
      assert olds[..i + 1] == olds[..i] + [olds[i]];
      if existing[i].controllerName == CONTROLLER_NAME && RefMatches(existing[i].parentRef, gw.namespace, gw) {
        continue;
      }
      out := out + [existing[i]];
    }
    assert olds[..|existing|] == olds;
  }

  lemma CellViewsConcat(a: seq<ParentCell>, b: seq<ParentCell>)
    requires ValidCells(a) && ValidCells(b)
    ensures ValidCells(a + b) && CellViews(a + b) == CellViews(a) + CellViews(b)
  {
  }

  /** `mergeRouteParents`: it rewrites the entries of `parents` and nothing else that
      existed before, so neither the old list nor any condition array reachable from it
      changes, and comparing it with the result afterwards compares old with new. */
  method MergeRouteParents(existing: seq<ParentCell>, gw: NamespacedName, parents: array<ParentCell>)
    returns (out: seq<ParentCell>)
    requires ValidCells(existing) && ValidCells(parents[..])
    modifies parents
    ensures ValidCells(out)
    ensures CellViews(out) == Merge(old(CellViews(existing)), gw, old(CellViews(parents[..])))
    ensures CellViews(existing) == old(CellViews(existing))
  {
    RefreshEntries(existing, parents);
    var kept := OtherEntries(existing, gw);
    out := kept + parents[..];
    CellViewsConcat(kept, parents[..]);
  }

  // ----- merges for several Gateways -----

  lemma {:induction false} FilterConcat(a: seq<ParentStatus>, b: seq<ParentStatus>, gw: NamespacedName)
    ensures Remaining(a + b, gw) == Remaining(a, gw) + Remaining(b, gw)
    ensures EntriesOf(a + b, gw) == EntriesOf(a, gw) + EntriesOf(b, gw)
  {
    if a == [] {
      assert a + b == b;
    } else {
      assert (a + b)[1..] == a[1..] + b;
      FilterConcat(a[1..], b, gw);
    }
  }

  /** A list without entries of `gw` is what the filter leaves of it. */
  lemma {:induction false} FilterNone(ps: seq<ParentStatus>, gw: NamespacedName)
    requires forall i :: 0 <= i < |ps| ==> !Owned(ps[i], gw)
    ensures Remaining(ps, gw) == ps && EntriesOf(ps, gw) == []
  {
    if ps != [] {
      FilterNone(ps[1..], gw);
      assert ps == [ps[0]] + ps[1..];
    }
  }

  lemma {:induction false} FilterAll(ps: seq<ParentStatus>, gw: NamespacedName)
    requires forall i :: 0 <= i < |ps| ==> Owned(ps[i], gw)
    ensures Remaining(ps, gw) == [] && EntriesOf(ps, gw) == ps
  {
    if ps != [] {
      FilterAll(ps[1..], gw);
      assert ps == [ps[0]] + ps[1..];
    }
  }

  lemma {:induction false} RemainingHasNone(ps: seq<ParentStatus>, gw: NamespacedName)
    ensures EntriesOf(Remaining(ps, gw), gw) == [] && Remaining(Remaining(ps, gw), gw) == Remaining(ps, gw)
  {
    if ps != [] {
      RemainingHasNone(ps[1..], gw);
      FilterConcat(if Owned(ps[0], gw) then [] else [ps[0]], Remaining(ps[1..], gw), gw);
    }
  }

  lemma {:induction false} DropsCommute(ps: seq<ParentStatus>, g: NamespacedName, h: NamespacedName)
    ensures Remaining(Remaining(ps, g), h) == Remaining(Remaining(ps, h), g)
  {
    if ps != [] {
      DropsCommute(ps[1..], g, h);
      FilterConcat(if Owned(ps[0], g) then [] else [ps[0]], Remaining(ps[1..], g), h);
      FilterConcat(if Owned(ps[0], h) then [] else [ps[0]], Remaining(ps[1..], h), g);
    }
  }

  lemma {:induction false} PreviousConcat(a: seq<ParentStatus>, b: seq<ParentStatus>, p: ParentStatus)
    ensures Previous(a + b, p) == if Previous(a, p).Some? then Previous(a, p) else Previous(b, p)
  {
    if a == [] {
      assert a + b == b;
    } else {
      assert (a + b)[1..] == a[1..] + b;
      PreviousConcat(a[1..], b, p);
    }
  }

  lemma {:induction false} PreviousOfRemaining(ps: seq<ParentStatus>, p: ParentStatus, h: NamespacedName)
    requires !Owned(p, h)
    ensures Previous(Remaining(ps, h), p) == Previous(ps, p)
  {
    if ps != [] {
      PreviousOfRemaining(ps[1..], p, h);
      PreviousConcat(if Owned(ps[0], h) then [] else [ps[0]], Remaining(ps[1..], h), p);
    }
  }

  lemma {:induction false} PreviousNone(ps: seq<ParentStatus>, p: ParentStatus)
    requires forall i :: 0 <= i < |ps| ==> !(ps[i].controllerName == p.controllerName && ps[i].parentRef == p.parentRef)
    ensures Previous(ps, p) == None
  {
    if ps != [] {
      PreviousNone(ps[1..], p);
    }
  }

  /** A merge for one Gateway does not change what a later merge for another finds. */
  lemma RefreshAcross(ps: seq<ParentStatus>, g: NamespacedName, mine: seq<ParentStatus>, h: NamespacedName,
                      theirs: seq<ParentStatus>)
    requires g != h && ComputedFor(mine, g) && ComputedFor(theirs, h)
    ensures RefreshAll(Merge(ps, h, theirs), mine) == RefreshAll(ps, mine)
  {
    forall i | 0 <= i < |mine| ensures Refresh(Merge(ps, h, theirs), mine[i]) == Refresh(ps, mine[i]) {
      PreviousConcat(Remaining(ps, h), RefreshAll(ps, theirs), mine[i]);
      PreviousOfRemaining(ps, mine[i], h);
      forall k | 0 <= k < |theirs|
        ensures RefreshAll(ps, theirs)[k].parentRef != mine[i].parentRef
      {
        assert RefreshAll(ps, theirs)[k].parentRef == theirs[k].parentRef;
        assert theirs[k].parentRef.namespace == Some(h.namespace) && mine[i].parentRef.namespace == Some(g.namespace);
      }
      PreviousNone(RefreshAll(ps, theirs), mine[i]);
    }
  }

  lemma RefreshedIsComputed(ps: seq<ParentStatus>, parents: seq<ParentStatus>, gw: NamespacedName)
    requires ComputedFor(parents, gw)
    ensures ComputedFor(RefreshAll(ps, parents), gw)
  {
    forall i | 0 <= i < |parents|
      ensures Refresh(ps, parents[i]).parentRef == parents[i].parentRef && Ours(Refresh(ps, parents[i]))
    {
    }
  }

  lemma ComputedFilters(parents: seq<ParentStatus>, g: NamespacedName, h: NamespacedName)
    requires ComputedFor(parents, g)
    ensures g == h ==> Remaining(parents, h) == [] && EntriesOf(parents, h) == parents
    ensures g != h ==> Remaining(parents, h) == parents && EntriesOf(parents, h) == []
  {
    if g == h {
      FilterAll(parents, h);
    } else {
      FilterNone(parents, h);
    }
  }

  /** Merges for distinct Gateways commute, up to the order of the entries. */
  lemma MergesCommute(ps: seq<ParentStatus>, g: NamespacedName, mine: seq<ParentStatus>, h: NamespacedName,
                      theirs: seq<ParentStatus>)
    requires g != h && ComputedFor(mine, g) && ComputedFor(theirs, h)
    ensures multiset(Merge(Merge(ps, g, mine), h, theirs)) == multiset(Merge(Merge(ps, h, theirs), g, mine))
  {
    var rm, rt := RefreshAll(ps, mine), RefreshAll(ps, theirs);
    RefreshAcross(ps, g, mine, h, theirs);
    RefreshAcross(ps, h, theirs, g, mine);
    RefreshedIsComputed(ps, mine, g);
    RefreshedIsComputed(ps, theirs, h);
    ComputedFilters(rm, g, h);
    ComputedFilters(rt, h, g);
    FilterConcat(Remaining(ps, g), rm, h);
    FilterConcat(Remaining(ps, h), rt, g);
    DropsCommute(ps, g, h);
    var rest := Remaining(Remaining(ps, g), h);
    assert Merge(Merge(ps, g, mine), h, theirs) == rest + rm + rt;
    assert Merge(Merge(ps, h, theirs), g, mine) == rest + rt + rm;
  }

  /** Entries written by this controller carry an explicit namespace. */
  predicate Explicit(ps: seq<ParentStatus>) {
    forall i :: 0 <= i < |ps| && Ours(ps[i]) ==> ps[i].parentRef.namespace.Some?
  }

  lemma {:induction false} EntriesOfRemaining(ps: seq<ParentStatus>, g: NamespacedName, h: NamespacedName)
    requires g != h && Explicit(ps)
    ensures EntriesOf(Remaining(ps, g), h) == EntriesOf(ps, h)
    ensures Explicit(Remaining(ps, g))
  {
    if ps != [] {
      EntriesOfRemaining(ps[1..], g, h);
      FilterConcat(if Owned(ps[0], g) then [] else [ps[0]], Remaining(ps[1..], g), h);
    }
  }

  function Foreign(ps: seq<ParentStatus>): seq<ParentStatus> {
    if ps == [] then [] else (if Ours(ps[0]) then [] else [ps[0]]) + Foreign(ps[1..])
  }

  lemma {:induction false} ForeignConcat(a: seq<ParentStatus>, b: seq<ParentStatus>)
    ensures Foreign(a + b) == Foreign(a) + Foreign(b)
  {
    if a == [] {
      assert a + b == b;
    } else {
      assert (a + b)[1..] == a[1..] + b;
      ForeignConcat(a[1..], b);
    }
  }

  lemma {:induction false} ForeignOfRemaining(ps: seq<ParentStatus>, gw: NamespacedName)
    ensures Foreign(Remaining(ps, gw)) == Foreign(ps)
  {
    if ps != [] {
      ForeignOfRemaining(ps[1..], gw);
      ForeignConcat(if Owned(ps[0], gw) then [] else [ps[0]], Remaining(ps[1..], gw));
    }
  }

  lemma {:induction false} ForeignNone(ps: seq<ParentStatus>)
    requires forall i :: 0 <= i < |ps| ==> Ours(ps[i])
    ensures Foreign(ps) == []
  {
    if ps != [] {
      ForeignNone(ps[1..]);
    }
  }

  lemma MergeKeepsOthers(ps: seq<ParentStatus>, gw: NamespacedName, parents: seq<ParentStatus>, h: NamespacedName)
    requires ComputedFor(parents, gw) && Explicit(ps) && h != gw
    ensures EntriesOf(Merge(ps, gw, parents), h) == EntriesOf(ps, h) && Explicit(Merge(ps, gw, parents))
  {
    var rs := RefreshAll(ps, parents);
    RefreshedIsComputed(ps, parents, gw);
    EntriesOfRemaining(ps, gw, h);
    ComputedFilters(rs, gw, h);
    FilterConcat(Remaining(ps, gw), rs, h);
  }

  /** One merge: other controllers' entries stay in order, this Gateway's entries become
      the refreshed parents, and every other Gateway's entries stay as they were. */
  lemma MergeFacts(ps: seq<ParentStatus>, gw: NamespacedName, parents: seq<ParentStatus>)
    requires ComputedFor(parents, gw)
    ensures var r := Merge(ps, gw, parents);
      && Foreign(r) == Foreign(ps)
      && EntriesOf(r, gw) == RefreshAll(ps, parents)
      && (Explicit(ps) ==> Explicit(r) && forall h :: h != gw ==> EntriesOf(r, h) == EntriesOf(ps, h))
  {
    var rs := RefreshAll(ps, parents);
    RefreshedIsComputed(ps, parents, gw);
    ForeignOfRemaining(ps, gw);
    ForeignNone(rs);
    ForeignConcat(Remaining(ps, gw), rs);
    ComputedFilters(rs, gw, gw);
    FilterConcat(Remaining(ps, gw), rs, gw);
    RemainingHasNone(ps, gw);
    if Explicit(ps) {
      MergeKeepsOthers(ps, gw, parents, NamespacedName(gw.namespace + "x", gw.name));
      forall h | h != gw ensures EntriesOf(Merge(ps, gw, parents), h) == EntriesOf(ps, h) {
        MergeKeepsOthers(ps, gw, parents, h);
      }
    }
  }

  predicate UniqueConditions(parents: seq<ParentStatus>) {
    forall i :: 0 <= i < |parents| ==> UniqueKinds(parents[i].conditions)
  }

  /** `entries` say about each parent exactly what `parents` computed. */
  predicate Reports(entries: seq<ParentStatus>, parents: seq<ParentStatus>) {
    |entries| == |parents| &&
    forall i :: 0 <= i < |parents| ==>
      && entries[i].parentRef == parents[i].parentRef && entries[i].controllerName == parents[i].controllerName
      && AllSettled(entries[i].conditions, parents[i].conditions)
  }

  lemma {:induction false} UniqueAllSettled(cs: seq<Condition>)
    requires UniqueKinds(cs)
    ensures AllSettled(cs, cs)
  {
    if cs != [] {
      UniqueAllSettled(cs[1..]);
      forall i | 0 <= i < |cs| ensures Settled(cs, cs[i]) {
        if i > 0 {
          assert cs[i] == cs[1..][i - 1];
          assert Settled(cs[1..], cs[1..][i - 1]);
        }
      }
    }
  }

  lemma RefreshReports(ps: seq<ParentStatus>, parents: seq<ParentStatus>)
    requires UniqueConditions(parents)
    ensures Reports(RefreshAll(ps, parents), parents)
  {
    forall i | 0 <= i < |parents| ensures AllSettled(Refresh(ps, parents[i]).conditions, parents[i].conditions) {
      match Previous(ps, parents[i])
      case None => UniqueAllSettled(parents[i].conditions);
      case Some(cs) => UpsertAllSettles(cs, parents[i].conditions, parents[i].conditions);
    }
  }

  // ----- entries without a namespace -----

  /** The Gateway an entry of a route in `routeNamespace` is about. */
  predicate About(p: ParentStatus, routeNamespace: string, gw: NamespacedName) {
    Ours(p) && RefMatches(p.parentRef, routeNamespace, gw)
  }

  lemma {:induction false} RemainingIff(ps: seq<ParentStatus>, p: ParentStatus, gw: NamespacedName)
    requires p in ps
    ensures p in Remaining(ps, gw) <==> !Owned(p, gw)
  {
    if p in ps[1..] {
      RemainingIff(ps[1..], p, gw);
    } else {
      RemainingOnlyKeeps(ps[1..], p, gw);
    }
  }

  lemma {:induction false} RemainingOnlyKeeps(ps: seq<ParentStatus>, p: ParentStatus, gw: NamespacedName)
    ensures p in Remaining(ps, gw) ==> p in ps && !Owned(p, gw)
  {
    if ps != [] {
      RemainingOnlyKeeps(ps[1..], p, gw);
    }
  }

  /** Exactly when a merge for `gw` keeps an entry about another Gateway: when the entry
      names its namespace, or names a Gateway of a different name. The two readings of an
      absent namespace, the route's when matching and the Gateway's when filtering, differ. */
  lemma OthersEntryKeptIff(ps: seq<ParentStatus>, p: ParentStatus, routeNamespace: string, other: NamespacedName,
                           gw: NamespacedName, parents: seq<ParentStatus>)
    requires p in ps && About(p, routeNamespace, other) && other != gw && ComputedFor(parents, gw)
    ensures p in Merge(ps, gw, parents) <==> p.parentRef.namespace.Some? || p.parentRef.name != gw.name
  {
    RemainingIff(ps, p, gw);
    RefreshedIsComputed(ps, parents, gw);
  }

  /** The failing case exists: merging for team-b/gw drops the entry about app/gw. */
  lemma OthersEntryLost() returns (p: ParentStatus, other: NamespacedName, gw: NamespacedName)
    ensures other != gw && About(p, "app", other) && p !in Merge([p], gw, [])
  {
    other, gw := NamespacedName("app", "gw"), NamespacedName("team-b", "gw");
    p := ParentStatus(ParentRef(None, None, None, "gw", None, None), CONTROLLER_NAME, []);
    assert "app"[0] != "team-b"[0];
    OthersEntryKeptIff([p], p, "app", other, gw, []);
  }

  // ----- the merge is a fixpoint -----

  /** Two computations of the same parents at different times; entries for one parent
      reference agree. */
  predicate SameButTimes(a: seq<ParentStatus>, b: seq<ParentStatus>) {
    && |a| == |b|
    && (forall i :: 0 <= i < |a| ==> a[i].parentRef == b[i].parentRef && AllAlike(a[i].conditions, b[i].conditions))
    && forall i, j :: 0 <= i < |a| && 0 <= j < |a| && a[i].parentRef == a[j].parentRef ==>
      a[i].conditions == a[j].conditions
  }

  lemma {:induction false} PreviousRefreshed(ps: seq<ParentStatus>, parents: seq<ParentStatus>, p: ParentStatus,
                                             i: nat) returns (k: nat)
    requires i < |parents| && parents[i].parentRef == p.parentRef && parents[i].controllerName == p.controllerName
    ensures k < |parents| && parents[k].parentRef == p.parentRef && parents[k].controllerName == p.controllerName
    ensures Previous(RefreshAll(ps, parents), p) == Some(Refresh(ps, parents[k]).conditions)
  {
    var rs := RefreshAll(ps, parents);
    k := 0;
    while !(rs[k].controllerName == p.controllerName && rs[k].parentRef == p.parentRef)
      invariant k <= i
      decreases i - k
      invariant forall m :: 0 <= m < k ==> !(rs[m].controllerName == p.controllerName && rs[m].parentRef == p.parentRef)
    {
      assert rs[i].parentRef == p.parentRef && rs[i].controllerName == p.controllerName;
      k := k + 1;
    }
    PreviousAt(rs, p, k);
  }

  lemma AlikeUnique(a: seq<Condition>, b: seq<Condition>)
    requires AllAlike(a, b) && UniqueKinds(a)
    ensures AllSettled(a, b)
  {
    UniqueAllSettled(a);
    forall i | 0 <= i < |b| ensures Settled(a, b[i]) {
      assert Alike(a[i], b[i]) && Settled(a, a[i]);
    }
  }

  lemma RefreshTwice(ps: seq<ParentStatus>, gw: NamespacedName, parents: seq<ParentStatus>, later: seq<ParentStatus>,
                     i: nat)
    requires ComputedFor(parents, gw) && ComputedFor(later, gw) && UniqueConditions(parents)
    requires SameButTimes(parents, later) && i < |parents|
    ensures Refresh(Merge(ps, gw, parents), later[i]) == Refresh(ps, parents[i])
  {
    var rs := RefreshAll(ps, parents);
    RemainingHasNone(ps, gw);
    assert Previous(Remaining(ps, gw), later[i]) == None by {
      forall k | 0 <= k < |Remaining(ps, gw)|
        ensures var p := Remaining(ps, gw)[k];
          !(p.controllerName == later[i].controllerName && p.parentRef == later[i].parentRef)
      {
        RemainingOnlyKeeps(ps, Remaining(ps, gw)[k], gw);
      }
      PreviousNone(Remaining(ps, gw), later[i]);
    }
    PreviousConcat(Remaining(ps, gw), rs, later[i]);
    var k := PreviousRefreshed(ps, parents, later[i], i);
    assert parents[k].conditions == parents[i].conditions;
    assert parents[k] == parents[i];
    var cs := Refresh(ps, parents[i]).conditions;
    match Previous(ps, parents[i])
    case None =>
      AlikeUnique(parents[i].conditions, later[i].conditions);
      UpsertAllNoop(cs, later[i].conditions);
    case Some(before) =>
      UpsertAllSettles(before, parents[i].conditions, later[i].conditions);
      UpsertAllNoop(cs, later[i].conditions);
  }

  lemma RefreshAllTwice(ps: seq<ParentStatus>, gw: NamespacedName, parents: seq<ParentStatus>, later: seq<ParentStatus>)
    requires ComputedFor(parents, gw) && ComputedFor(later, gw) && UniqueConditions(parents)
    requires SameButTimes(parents, later)
    ensures RefreshAll(Merge(ps, gw, parents), later) == RefreshAll(ps, parents)
  {
    forall i | 0 <= i < |later| ensures Refresh(Merge(ps, gw, parents), later[i]) == Refresh(ps, parents[i]) {
      RefreshTwice(ps, gw, parents, later, i);
    }
  }

  /** Merging the same parents again, computed at any later time, changes nothing, with
      repeated parent references too; so the second pass does not write. */
  lemma MergeFixpoint(ps: seq<ParentStatus>, gw: NamespacedName, parents: seq<ParentStatus>, later: seq<ParentStatus>)
    requires ComputedFor(parents, gw) && ComputedFor(later, gw) && UniqueConditions(parents)
    requires SameButTimes(parents, later)
    ensures Merge(Merge(ps, gw, parents), gw, later) == Merge(ps, gw, parents)
  {
    RefreshAllTwice(ps, gw, parents, later);
    RefreshedIsComputed(ps, parents, gw);
    ComputedFilters(RefreshAll(ps, parents), gw, gw);
    FilterConcat(Remaining(ps, gw), RefreshAll(ps, parents), gw);
    RemainingHasNone(ps, gw);
  }
}
