/** Concurrent markers of one route, for any Gateways, with edits of the route and writes by
    other controllers, over the optimistic store. */
module RouteStore {
  import opened GatewayApi
  import opened Conditions
  import opened RouteAcceptance
  import opened RouteParents
  import opened RouteStatuses
  import opened OptimisticStore

  /** Marking the route for one Gateway. */
  datatype Op = MarkFor(gw: Gateway)

  /** What the cluster reads of one attempt return, and its time. */
  datatype Attempt = Attempt(snapshot: Snapshot, now: int)

  /** `None` when a lookup failed, which ends the marking with an error. */
  function Transform(route: Route, op: Op, a: Attempt): Option<Route> {
    MarkRoute(a.snapshot, route, op.gw, a.now)
  }

  /** The owner edits the spec, or other controllers' entries are replaced: `blocks` are the
      new ones before, between and behind ours. */
  datatype Change =
    | SpecEdit(parentRefs: seq<ParentRef>, hostnames: seq<string>, backendRefs: seq<BackendRef>)
    | OtherEntries(blocks: seq<seq<ParentStatus>>)

  predicate Legal(c: Change) {
    c.OtherEntries? ==> AllForeign(c.blocks)
  }

  predicate ForeignOnly(ps: seq<ParentStatus>) {
    forall i :: 0 <= i < |ps| ==> !Ours(ps[i])
  }

  predicate AllForeign(blocks: seq<seq<ParentStatus>>) {
    forall b :: 0 <= b < |blocks| ==> ForeignOnly(blocks[b])
  }

  function Flatten(blocks: seq<seq<ParentStatus>>): seq<ParentStatus> {
    if blocks == [] then [] else blocks[0] + Flatten(blocks[1..])
  }

  /** Our entries with a block before each, and the remaining blocks behind. */
  function Weave(ours: seq<ParentStatus>, blocks: seq<seq<ParentStatus>>): seq<ParentStatus> {
    if ours == [] then Flatten(blocks)
    else if blocks == [] then ours
    else blocks[0] + [ours[0]] + Weave(ours[1..], blocks[1..])
  }

  function OurEntries(ps: seq<ParentStatus>): seq<ParentStatus> {
    if ps == [] then [] else (if Ours(ps[0]) then [ps[0]] else []) + OurEntries(ps[1..])
  }

  function ApplyChange(route: Route, c: Change): Route {
    match c
    case SpecEdit(parentRefs, hostnames, backendRefs) =>
      route.(generation := route.generation + 1, parentRefs := parentRefs, hostnames := hostnames,
          backendRefs := backendRefs)
    case OtherEntries(blocks) => route.(parents := Weave(OurEntries(route.parents), blocks))
  }

  const RULES: Rules<Route, Op, Attempt, Change> := Rules(Transform, ApplyChange, Legal)

  type RStore = Store<Route, Op, Attempt, Change>
  type RCause = Cause<Op, Attempt, Change>
  type RStep = Step<Op, Attempt, Change>

  lemma {:induction false} OurEntriesFacts(ps: seq<ParentStatus>, gw: NamespacedName)
    ensures EntriesOf(OurEntries(ps), gw) == EntriesOf(ps, gw) && Foreign(OurEntries(ps)) == []
    ensures Explicit(ps) ==> Explicit(OurEntries(ps))
  {
    if ps != [] {
      OurEntriesFacts(ps[1..], gw);
      FilterConcat(if Ours(ps[0]) then [ps[0]] else [], OurEntries(ps[1..]), gw);
      ForeignConcat(if Ours(ps[0]) then [ps[0]] else [], OurEntries(ps[1..]));
      if Explicit(ps) {
        assert forall i :: 0 <= i < |ps[1..]| ==> ps[1..][i] == ps[i + 1];
      }
    }
  }

  lemma {:induction false} ForeignAll(ps: seq<ParentStatus>)
    requires forall i :: 0 <= i < |ps| ==> !Ours(ps[i])
    ensures Foreign(ps) == ps
  {
    if ps != [] {
      ForeignAll(ps[1..]);
      assert ps == [ps[0]] + ps[1..];
    }
  }

  lemma {:induction false} FlattenFacts(blocks: seq<seq<ParentStatus>>, gw: NamespacedName)
    requires AllForeign(blocks)
    ensures OurEntries(Flatten(blocks)) == [] && Foreign(Flatten(blocks)) == Flatten(blocks)
    ensures EntriesOf(Flatten(blocks), gw) == [] && Explicit(Flatten(blocks))
  {
    if blocks != [] {
      FlattenFacts(blocks[1..], gw);
      OurEntriesConcat(blocks[0], Flatten(blocks[1..]));
      NoneOurs(blocks[0], gw);
      ForeignConcat(blocks[0], Flatten(blocks[1..]));
      FilterConcat(blocks[0], Flatten(blocks[1..]), gw);
    }
  }

  lemma {:induction false} NoneOurs(ps: seq<ParentStatus>, gw: NamespacedName)
    requires ForeignOnly(ps)
    ensures OurEntries(ps) == [] && Foreign(ps) == ps && EntriesOf(ps, gw) == []
  {
    ForeignAll(ps);
    FilterNone(ps, gw);
    if ps != [] {
      NoneOurs(ps[1..], gw);
    }
  }

  lemma {:induction false} OurEntriesConcat(a: seq<ParentStatus>, b: seq<ParentStatus>)
    ensures OurEntries(a + b) == OurEntries(a) + OurEntries(b)
  {
    if a == [] {
      assert a + b == b;
    } else {
      assert (a + b)[1..] == a[1..] + b;
      OurEntriesConcat(a[1..], b);
    }
  }

  lemma {:induction false} WeaveKeepsEntries(ours: seq<ParentStatus>, blocks: seq<seq<ParentStatus>>,
                                             gw: NamespacedName)
    requires AllForeign(blocks)
    ensures EntriesOf(Weave(ours, blocks), gw) == EntriesOf(ours, gw)
  {
    if ours == [] {
      FlattenFacts(blocks, gw);
    } else if blocks != [] {
      WeaveKeepsEntries(ours[1..], blocks[1..], gw);
      NoneOurs(blocks[0], gw);
      FilterConcat(blocks[0] + [ours[0]], Weave(ours[1..], blocks[1..]), gw);
      FilterConcat(blocks[0], [ours[0]], gw);
      FilterConcat([ours[0]], ours[1..], gw);
      assert ours == [ours[0]] + ours[1..];
    }
  }

  lemma ForeignBlock(block: seq<ParentStatus>, p: ParentStatus, rest: seq<ParentStatus>)
    requires ForeignOnly(block) && Ours(p)
    ensures Foreign(block + [p] + rest) == block + Foreign(rest)
  {
    ForeignConcat(block + [p], rest);
    ForeignConcat(block, [p]);
    ForeignAll(block);
    ForeignNone([p]);
    assert block + [] == block;
  }

  lemma {:induction false} WeaveForeign(ours: seq<ParentStatus>, blocks: seq<seq<ParentStatus>>)
    requires AllForeign(blocks) && forall i :: 0 <= i < |ours| ==> Ours(ours[i])
    ensures Foreign(Weave(ours, blocks)) == Flatten(blocks)
  {
    if ours == [] {
      FlattenFacts(blocks, NamespacedName("", ""));
    } else if blocks == [] {
      ForeignNone(ours);
    } else {
      WeaveForeign(ours[1..], blocks[1..]);
      ForeignBlock(blocks[0], ours[0], Weave(ours[1..], blocks[1..]));
    }
  }

  lemma {:induction false} WeaveExplicit(ours: seq<ParentStatus>, blocks: seq<seq<ParentStatus>>)
    requires AllForeign(blocks) && Explicit(ours)
    ensures Explicit(Weave(ours, blocks))
  {
    if ours == [] {
      FlattenFacts(blocks, NamespacedName("", ""));
    } else if blocks != [] {
      WeaveExplicit(ours[1..], blocks[1..]);
    }
  }

  lemma {:induction false} OurEntriesAreOurs(ps: seq<ParentStatus>)
    ensures forall i :: 0 <= i < |OurEntries(ps)| ==> Ours(OurEntries(ps)[i])
  {
    if ps != [] {
      OurEntriesAreOurs(ps[1..]);
    }
  }

  lemma WeaveOurs(p: ParentStatus, ours: seq<ParentStatus>, blocks: seq<seq<ParentStatus>>)
    ensures Weave([p] + ours, [[]] + blocks) == [p] + Weave(ours, blocks)
  {
    assert ([p] + ours)[1..] == ours;
    assert ([[]] + blocks)[1..] == blocks;
  }

  lemma WeaveOther(p: ParentStatus, ours: seq<ParentStatus>, blocks: seq<seq<ParentStatus>>)
    requires blocks != []
    ensures Weave(ours, [[p] + blocks[0]] + blocks[1..]) == [p] + Weave(ours, blocks)
  {
    assert ([[p] + blocks[0]] + blocks[1..])[1..] == blocks[1..];
  }

  /** Every list with the same entries of ours, in their order, is such a weaving. */
  lemma {:induction false} EveryListIsWoven(ps: seq<ParentStatus>) returns (blocks: seq<seq<ParentStatus>>)
    ensures AllForeign(blocks) && blocks != [] && Weave(OurEntries(ps), blocks) == ps
  {
    if ps == [] {
      blocks := [[]];
      assert blocks[1..] == [] && Flatten(blocks[1..]) == [];
    } else {
      var rest := EveryListIsWoven(ps[1..]);
      assert ps == [ps[0]] + ps[1..];
      if Ours(ps[0]) {
        blocks := [[]] + rest;
        WeaveOurs(ps[0], OurEntries(ps[1..]), rest);
      } else {
        blocks := [[ps[0]] + rest[0]] + rest[1..];
        WeaveOther(ps[0], OurEntries(ps[1..]), rest);
        assert [] + OurEntries(ps[1..]) == OurEntries(ps[1..]);
      }
    }
  }

  lemma OthersFacts(ps: seq<ParentStatus>, blocks: seq<seq<ParentStatus>>, gw: NamespacedName)
    requires AllForeign(blocks)
    ensures var r := Weave(OurEntries(ps), blocks);
      EntriesOf(r, gw) == EntriesOf(ps, gw) && Foreign(r) == Flatten(blocks) && (Explicit(ps) ==> Explicit(r))
  {
    OurEntriesFacts(ps, gw);
    OurEntriesAreOurs(ps);
    WeaveKeepsEntries(OurEntries(ps), blocks, gw);
    WeaveForeign(OurEntries(ps), blocks);
    if Explicit(ps) {
      WeaveExplicit(OurEntries(ps), blocks);
    }
  }

  /** The cause is a commit for this Gateway. */
  predicate Marks(c: RCause, gw: NamespacedName) {
    c.ByWriter? && c.op.gw.key == gw
  }

  /** `y` reports what was computed for `x` at the commit. */
  ghost predicate ReportsCommit(x: Route, c: RCause, y: Route)
    requires c.ByWriter?
  {
    var parents := ParentsFor(c.env.snapshot, x, c.op.gw, c.env.now);
    parents.Some? && Reports(EntriesOf(y.parents, c.op.gw.key), parents.value)
  }

  /** Other controllers' entries change only when another controller writes. */
  lemma CauseForeign(x: Route, c: RCause, y: Route)
    requires LinkOk(RULES, x, c, y)
    ensures Foreign(y.parents) ==
            if c.ByOther? && c.change.OtherEntries? then Flatten(c.change.blocks) else Foreign(x.parents)
  {
    match c
    case ByWriter(_, op, a) =>
      ParentsAgree(a.snapshot, x, op.gw, a.now, a.now);
      MergeFacts(x.parents, op.gw.key, ParentsFor(a.snapshot, x, op.gw, a.now).value);
    case ByOther(SpecEdit(_, _, _)) =>
    case ByOther(OtherEntries(blocks)) => OthersFacts(x.parents, blocks, NamespacedName("", ""));
  }

  lemma CauseEffect(x: Route, c: RCause, y: Route, gw: NamespacedName)
    requires LinkOk(RULES, x, c, y) && Explicit(x.parents)
    ensures Explicit(y.parents)
    ensures !Marks(c, gw) ==> EntriesOf(y.parents, gw) == EntriesOf(x.parents, gw)
    ensures Marks(c, gw) ==> ReportsCommit(x, c, y)
  {
    match c
    case ByWriter(_, op, a) =>
      ParentsAgree(a.snapshot, x, op.gw, a.now, a.now);
      var parents := ParentsFor(a.snapshot, x, op.gw, a.now).value;
      MergeFacts(x.parents, op.gw.key, parents);
      RefreshReports(x.parents, parents);
    case ByOther(SpecEdit(_, _, _)) =>
    case ByOther(OtherEntries(blocks)) => OthersFacts(x.parents, blocks, gw);
  }

  predicate LatestMark(causes: seq<RCause>, i: int, n: int, gw: NamespacedName) {
    0 <= i < n <= |causes| && Marks(causes[i], gw) && forall k :: i < k < n ==> !Marks(causes[k], gw)
  }

  lemma {:induction false} LinkedExplicit(s: RStore, n: nat)
    requires Linked(RULES, s) && n < |s.history| && Explicit(s.history[0].parents)
    ensures Explicit(s.history[n].parents)
  {
    if n > 0 {
      LinkedExplicit(s, n - 1);
      CauseEffect(s.history[n - 1], s.causes[n - 1], s.history[n], NamespacedName("", ""));
    }
  }

  /** Nothing but a commit for the Gateway changes its entries. */
  lemma {:induction false} QuietSince(s: RStore, i: nat, n: nat, gw: NamespacedName)
    requires Linked(RULES, s) && i <= n < |s.history| && Explicit(s.history[0].parents)
    requires forall k :: i <= k < n ==> !Marks(s.causes[k], gw)
    ensures EntriesOf(s.history[n].parents, gw) == EntriesOf(s.history[i].parents, gw)
    decreases n
  {
    if i < n {
      QuietSince(s, i, n - 1, gw);
      LinkedExplicit(s, n - 1);
      CauseEffect(s.history[n - 1], s.causes[n - 1], s.history[n], gw);
    }
  }

  lemma ReportsCarries(x: Route, c: RCause, y: Route, z: Route, gw: NamespacedName)
    requires Marks(c, gw) && ReportsCommit(x, c, y) && EntriesOf(z.parents, gw) == EntriesOf(y.parents, gw)
    ensures ReportsCommit(x, c, z)
  {
  }

  /** One link of the chain, on its own. */
  lemma LinkReports(s: RStore, i: nat, gw: NamespacedName)
    requires Linked(RULES, s) && i < |s.causes| && Explicit(s.history[0].parents) && Marks(s.causes[i], gw)
    ensures ReportsCommit(s.history[i], s.causes[i], s.history[i + 1])
  {
    LinkedExplicit(s, i);
    CauseEffect(s.history[i], s.causes[i], s.history[i + 1], gw);
  }

  lemma LatestIsReported(s: RStore, i: nat, n: nat, gw: NamespacedName)
    requires Linked(RULES, s) && n < |s.history| && Explicit(s.history[0].parents) && LatestMark(s.causes, i, n, gw)
    ensures ReportsCommit(s.history[i], s.causes[i], s.history[n])
  {
    LinkReports(s, i, gw);
    QuietSince(s, i + 1, n, gw);
    ReportsCarries(s.history[i], s.causes[i], s.history[i + 1], s.history[n], gw);
  }

  /** Route status under concurrency. In every run of markers for any Gateways over one
      route, with stale reads, conflicts, retries, spec edits and other controllers' writes:
      a Gateway that some marker committed for has exactly the parents, with the
      conditions, that its last committed marker computed from the version just before
      and from what the cluster then was;
      a Gateway nobody committed for keeps the entries it began with. */
  lemma RouteParentsOverRuns(states: seq<RStore>, steps: seq<RStep>, n: nat, gw: NamespacedName)
    requires IsRun(RULES, states, steps) && n < |states| && |states[0].history| == 1
    requires Explicit(states[0].history[0].parents)
    ensures var s := states[n]; var last := |s.causes|;
      && |s.history| == last + 1
      && ((forall i :: 0 <= i < last ==> !Marks(s.causes[i], gw)) ==>
            EntriesOf(s.history[last].parents, gw) == EntriesOf(states[0].history[0].parents, gw))
      && (forall i :: LatestMark(s.causes, i, last, gw) ==> ReportsCommit(s.history[i], s.causes[i], s.history[last]))
  {
    RunKeepsInv(RULES, states, steps, n);
    var s := states[n];
    assert s.history[0] == states[0].history[0];
    var last := |s.causes|;
    if forall i :: 0 <= i < last ==> !Marks(s.causes[i], gw) {
      QuietSince(s, 0, last, gw);
    }
    forall i | LatestMark(s.causes, i, last, gw) ensures ReportsCommit(s.history[i], s.causes[i], s.history[last]) {
      LatestIsReported(s, i, last, gw);
    }
  }

  /** What other controllers last wrote, or the initial entries of theirs. */
  function LastForeign(ps: seq<ParentStatus>, causes: seq<RCause>): seq<ParentStatus> {
    if causes == [] then Foreign(ps)
    else
      var c := causes[|causes| - 1];
      if c.ByOther? && c.change.OtherEntries? then Flatten(c.change.blocks) else LastForeign(ps, causes[..|causes| - 1])
  }

  lemma {:induction false} LinkedForeign(s: RStore, n: nat)
    requires Linked(RULES, s) && n < |s.history|
    ensures Foreign(s.history[n].parents) == LastForeign(s.history[0].parents, s.causes[..n])
  {
    if n > 0 {
      LinkedForeign(s, n - 1);
      CauseForeign(s.history[n - 1], s.causes[n - 1], s.history[n]);
      assert s.causes[..n][..n - 1] == s.causes[..n - 1];
    }
  }

  /** Other controllers' entries are, in order, exactly what those controllers last wrote. */
  lemma ForeignEntriesSurvive(states: seq<RStore>, steps: seq<RStep>, n: nat)
    requires IsRun(RULES, states, steps) && n < |states|
    ensures var s := states[n];
      |s.history| == |s.causes| + 1 &&
      Foreign(s.history[|s.causes|].parents) == LastForeign(states[0].history[0].parents, s.causes)
  {
    RunKeepsInv(RULES, states, steps, n);
    var s := states[n];
    assert s.history[0] == states[0].history[0];
    LinkedForeign(s, |s.causes|);
    assert s.causes[..|s.causes|] == s.causes;
  }
}
