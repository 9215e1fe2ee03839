/** Concurrent status writers of one Gateway, with edits by the Gateway's owner and writes by
    other controllers, over the optimistic store. */
module GatewayStore {
  import opened GatewayApi
  import opened Conditions
  import opened GatewayStatuses
  import opened OptimisticStore

  datatype Op =
    | AcceptOp
    | ProgramOp(addresses: seq<Address>)
    | ResolveRefsOp(name: string, status: ConditionStatus, reason: string, message: string)

  function NewStatus(gw: Gateway, op: Op, now: int): GatewayStatus {
    match op
    case AcceptOp => AcceptedStatus(gw, now)
    case ProgramOp(addresses) => ProgrammedStatus(gw, addresses, now)
    case ResolveRefsOp(name, status, reason, message) => ResolvedRefsStatus(gw, name, status, reason, message, now)
  }

  function Transform(gw: Gateway, op: Op, now: int): Gateway {
    gw.(status := NewStatus(gw, op, now))
  }

  function TransformOk(gw: Gateway, op: Op, now: int): Option<Gateway> {
    Some(Transform(gw, op, now))
  }

  /** A spec edit, which bumps the generation, the start of deletion, which need not, or
      another controller's own condition, on the Gateway or on a listener's status. */
  datatype Change =
    | SpecEdit(className: string, listeners: seq<Listener>, clientCert: Option<SecretRef>, deleting: bool)
    | BeginDeletion
    | OtherCondition(condition: Condition)
    | OtherListenerCondition(name: string, condition: Condition)

  predicate OwnKind(kind: string) {
    kind == ACCEPTED || kind == PROGRAMMED
  }

  predicate Legal(c: Change) {
    match c
    case SpecEdit(_, _, _, _) => true
    case BeginDeletion => true
    case OtherCondition(d) => !OwnKind(d.kind)
    case OtherListenerCondition(_, d) => !OwnListenerKind(d.kind)
  }

  function ApplyChange(gw: Gateway, c: Change): Gateway {
    match c
    case SpecEdit(className, listeners, clientCert, deleting) =>
      gw.(generation := gw.generation + 1, className := className, listeners := listeners,
          clientCert := clientCert, deleting := deleting)
    case BeginDeletion => gw.(deleting := true)
    case OtherCondition(d) => gw.(status := gw.status.(conditions := Upsert(gw.status.conditions, d)))
    case OtherListenerCondition(name, d) =>
      gw.(status := gw.status.(listeners := UpsertNamed(gw.status.listeners, name, d)))
  }

  const RULES: Rules<Gateway, Op, int, Change> := Rules(TransformOk, ApplyChange, Legal)

  type GStore = Store<Gateway, Op, int, Change>
  type GCause = Cause<Op, int, Change>
  type GStep = Step<Op, int, Change>

  predicate IsEdit(c: GCause) {
    c.ByOther? && c.change.SpecEdit?
  }

  // ----- conditions of other controllers -----

  /** The conditions as they would be if only other controllers had written. */
  function ReplayOthers(cs: seq<Condition>, causes: seq<GCause>): seq<Condition> {
    if causes == [] then cs
    else
      OthersOnly(ReplayOthers(cs, causes[..|causes| - 1]), causes[|causes| - 1])
  }

  function OthersOnly(cs: seq<Condition>, c: GCause): seq<Condition> {
    if c.ByOther? && c.change.OtherCondition? then Upsert(cs, c.change.condition) else cs
  }

  lemma TransformKeepsOther(gw: Gateway, op: Op, now: int, kind: string)
    requires !OwnKind(kind)
    ensures Lookup(NewStatus(gw, op, now).conditions, kind) == Lookup(gw.status.conditions, kind)
  {
    match op
    case AcceptOp => AcceptConditionsFacts(gw.status.conditions, gw.generation, now);
    case ProgramOp(_) => LookupOfUpsert(gw.status.conditions, GatewayProgrammed(gw.generation, now), kind);
    case ResolveRefsOp(_, _, _, _) =>
  }

  lemma CauseKeepsOther(gw: Gateway, cs: seq<Condition>, c: GCause, after: Gateway, kind: string)
    requires LinkOk(RULES, gw, c, after)
    requires !OwnKind(kind) && Lookup(gw.status.conditions, kind) == Lookup(cs, kind)
    ensures Lookup(after.status.conditions, kind) == Lookup(OthersOnly(cs, c), kind)
  {
    match c
    case ByWriter(_, op, now) => TransformKeepsOther(gw, op, now, kind);
    case ByOther(SpecEdit(_, _, _, _)) =>
    case ByOther(BeginDeletion) =>
    case ByOther(OtherCondition(d)) =>
      LookupOfUpsert(gw.status.conditions, d, kind);
      LookupOfUpsert(cs, d, kind);
    case ByOther(OtherListenerCondition(_, _)) =>
  }

  lemma ReplayOthersStep(cs: seq<Condition>, causes: seq<GCause>, i: nat)
    requires i < |causes|
    ensures ReplayOthers(cs, causes[..i + 1]) == OthersOnly(ReplayOthers(cs, causes[..i]), causes[i])
  {
    assert causes[..i + 1][..i] == causes[..i];
  }

  lemma {:induction false} LinkedKeepsOther(s: GStore, kind: string, i: nat)
    requires Linked(RULES, s) && i < |s.history| && !OwnKind(kind)
    ensures Lookup(s.history[i].status.conditions, kind) ==
            Lookup(ReplayOthers(s.history[0].status.conditions, s.causes[..i]), kind)
  {
    if i > 0 {
      LinkedKeepsOther(s, kind, i - 1);
      ReplayOthersStep(s.history[0].status.conditions, s.causes, i - 1);
      var cs := ReplayOthers(s.history[0].status.conditions, s.causes[..i - 1]);
      CauseKeepsOther(s.history[i - 1], cs, s.causes[i - 1], s.history[i], kind);
    }
  }

  /** Conditions of types we do not own survive every run: they are exactly what the
      other controllers' writes alone would have left. */
  lemma OtherConditionsSurvive(states: seq<GStore>, steps: seq<GStep>, n: nat, kind: string)
    requires IsRun(RULES, states, steps) && n < |states| && !OwnKind(kind)
    ensures var s := states[n];
      s.history != [] &&
      Lookup(s.history[|s.history| - 1].status.conditions, kind) ==
      Lookup(ReplayOthers(states[0].history[0].status.conditions, s.causes), kind)
  {
    RunKeepsInv(RULES, states, steps, n);
    var s := states[n];
    assert s.history[0] == states[0].history[0];
    LinkedKeepsOther(s, kind, |s.causes|);
    assert s.causes[..|s.causes|] == s.causes;
  }

  // ----- the life of Programmed over whole runs -----

  /** The listener's status has Programmed=True at a generation. */
  predicate ListenerClaims(gw: Gateway, name: string, generation: int) {
    var ls := LastNamed(gw.status.listeners, name);
    ls.Some? && ProgrammedAt(ls.value.conditions, generation)
  }

  predicate ListenerProgrammedAt(gw: Gateway, name: string) {
    ListenerClaims(gw, name, gw.generation)
  }

  predicate HasListener(gw: Gateway, name: string) {
    exists i :: 0 <= i < |gw.listeners| && gw.listeners[i].name == name
  }

  lemma {:induction false} UpsertFirstNamedFacts(ls: seq<ListenerStatus>, name: string, c: Condition, i: nat)
    requires i < |ls|
    ensures var r := UpsertFirstNamed(ls, name, c);
      && |r| == |ls| && r[i].name == ls[i].name
      && (r[i] == ls[i] || r[i] == ls[i].(conditions := Upsert(ls[i].conditions, c)))
  {
    var r := UpsertFirstNamed(ls, name, c);
    if ls[0].name != name {
      assert r[1..] == UpsertFirstNamed(ls[1..], name, c);
      if i > 0 {
        UpsertFirstNamedFacts(ls[1..], name, c, i - 1);
      } else if |ls| > 1 {
        UpsertFirstNamedFacts(ls[1..], name, c, 0);
      }
    }
  }

  /** The last entry with a name stays at its place when the names do. */
  lemma {:induction false} LastNamedPointwise(a: seq<ListenerStatus>, b: seq<ListenerStatus>, name: string)
    returns (i: int)
    requires |a| == |b| && forall k :: 0 <= k < |a| ==> a[k].name == b[k].name
    ensures -1 <= i < |a|
    ensures i == -1 ==> LastNamed(a, name) == None && LastNamed(b, name) == None
    ensures i >= 0 ==> LastNamed(a, name) == Some(a[i]) && LastNamed(b, name) == Some(b[i])
  {
    if a == [] {
      i := -1;
    } else if a[|a| - 1].name == name {
      i := |a| - 1;
    } else {
      i := LastNamedPointwise(a[..|a| - 1], b[..|b| - 1], name);
    }
  }

  lemma TransformKeepsUnique(gw: Gateway, op: Op, now: int)
    requires UniqueStatus(gw.status)
    ensures UniqueStatus(NewStatus(gw, op, now))
  {
    var t := NewStatus(gw, op, now);
    match op
    case AcceptOp => AcceptedStatusFacts(gw, now);
    case ProgramOp(_) =>
      UpsertFrame(gw.status.conditions, GatewayProgrammed(gw.generation, now));
      forall i | 0 <= i < |t.listeners| ensures UniqueKinds(t.listeners[i].conditions) {
        UpsertFrame(gw.status.listeners[i].conditions, ListenerProgrammed(gw.generation, now));
      }
    case ResolveRefsOp(name, status, reason, message) =>
      var c := Condition(RESOLVED_REFS, status, reason, message, now, gw.generation);
      forall i | 0 <= i < |t.listeners| ensures UniqueKinds(t.listeners[i].conditions) {
        if |gw.status.listeners| > 0 {
          UpsertFirstNamedFacts(gw.status.listeners, name, c, 0);
          UpsertFirstNamedFacts(gw.status.listeners, name, c, i);
          UpsertFrame(gw.status.listeners[i].conditions, c);
        }
      }
  }

  lemma CauseKeepsUnique(gw: Gateway, c: GCause)
    requires UniqueStatus(gw.status)
    ensures UniqueStatus(Apply(RULES, gw, c).status)
  {
    match c
    case ByWriter(_, op, now) => TransformKeepsUnique(gw, op, now);
    case ByOther(SpecEdit(_, _, _, _)) =>
    case ByOther(BeginDeletion) =>
    case ByOther(OtherCondition(d)) => UpsertFrame(gw.status.conditions, d);
    case ByOther(OtherListenerCondition(_, d)) =>
      forall i | 0 <= i < |gw.status.listeners|
        ensures UniqueKinds(Apply(RULES, gw, c).status.listeners[i].conditions)
      {
        UpsertFrame(gw.status.listeners[i].conditions, d);
      }
  }

  /** A transform moves Programmed to True at this generation only if it is
      `MarkProgrammed`, and never away from it. */
  lemma TransformProgrammed(gw: Gateway, op: Op, now: int)
    ensures ProgrammedAt(gw.status.conditions, gw.generation) ==>
      ProgrammedAt(NewStatus(gw, op, now).conditions, gw.generation)
    ensures !op.ProgramOp? && ProgrammedAt(NewStatus(gw, op, now).conditions, gw.generation) ==>
      ProgrammedAt(gw.status.conditions, gw.generation)
  {
    match op
    case AcceptOp => AcceptConditionsFacts(gw.status.conditions, gw.generation, now);
    case ProgramOp(_) =>
      var c := GatewayProgrammed(gw.generation, now);
      UpsertSettles(gw.status.conditions, c, c);
    case ResolveRefsOp(_, _, _, _) =>
  }

  lemma AcceptListenerProgrammed(gw: Gateway, now: int, name: string)
    requires HasListener(gw, name)
    ensures ListenerProgrammedAt(gw, name) <==> ListenerProgrammedAt(gw.(status := AcceptedStatus(gw, now)), name)
  {
    var t := AcceptedStatus(gw, now);
    forall k | 0 <= k < |gw.listeners| ensures t.listeners[k].name == gw.listeners[k].name {
      LastNamedHasName(gw.status.listeners, gw.listeners[k].name);
    }
    var i :| 0 <= i < |gw.listeners| && gw.listeners[i].name == name;
    var j := LastNamedIndex(t.listeners, i);
    var ls := LastNamed(gw.status.listeners, name).GetOr(ListenerStatus(name, [], 0, []));
    AcceptListenerFacts(ls.conditions, gw.generation, now);
  }

  lemma RefuseListenerProgrammed(gw: Gateway, n: string, c: Condition, name: string)
    requires c.kind == RESOLVED_REFS
    ensures ListenerProgrammedAt(gw, name) <==>
      ListenerProgrammedAt(gw.(status := gw.status.(listeners := UpsertFirstNamed(gw.status.listeners, n, c))), name)
  {
    var ls, rs := gw.status.listeners, UpsertFirstNamed(gw.status.listeners, n, c);
    if ls != [] {
      UpsertFirstNamedFacts(ls, n, c, 0);
      forall k | 0 <= k < |ls| ensures rs[k].name == ls[k].name {
        UpsertFirstNamedFacts(ls, n, c, k);
      }
      var i := LastNamedPointwise(ls, rs, name);
      if i >= 0 {
        UpsertFirstNamedFacts(ls, n, c, i);
        LookupOfUpsert(ls[i].conditions, c, PROGRAMMED);
      }
    }
  }

  lemma TransformListenerProgrammed(gw: Gateway, op: Op, now: int, name: string)
    requires HasListener(gw, name)
    ensures ListenerProgrammedAt(gw, name) ==> ListenerProgrammedAt(Transform(gw, op, now), name)
    ensures !op.ProgramOp? && ListenerProgrammedAt(Transform(gw, op, now), name) ==>
      ListenerProgrammedAt(gw, name)
  {
    match op
    case AcceptOp => AcceptListenerProgrammed(gw, now, name);
    case ProgramOp(_) =>
      var i := LastNamedPointwise(gw.status.listeners, NewStatus(gw, op, now).listeners, name);
      if i >= 0 {
        var c := ListenerProgrammed(gw.generation, now);
        UpsertSettles(gw.status.listeners[i].conditions, c, c);
      }
    case ResolveRefsOp(n, status, reason, message) =>
      RefuseListenerProgrammed(gw, n, Condition(RESOLVED_REFS, status, reason, message, now, gw.generation), name);
  }

  /** One commit that does not change the spec keeps Programmed=True where it is. */
  lemma CauseKeepsProgrammed(gw: Gateway, c: GCause)
    requires (c.ByOther? ==> Legal(c.change)) && !IsEdit(c)
    ensures var r := Apply(RULES, gw, c);
      && r.generation == gw.generation && r.listeners == gw.listeners
      && (ProgrammedAt(gw.status.conditions, gw.generation) ==> ProgrammedAt(r.status.conditions, r.generation))
      && (forall n :: HasListener(gw, n) && ListenerProgrammedAt(gw, n) ==> ListenerProgrammedAt(r, n))
  {
    match c
    case ByWriter(_, op, now) =>
      TransformProgrammed(gw, op, now);
      forall n | HasListener(gw, n) && ListenerProgrammedAt(gw, n)
        ensures ListenerProgrammedAt(Transform(gw, op, now), n)
      {
        TransformListenerProgrammed(gw, op, now, n);
      }
    case ByOther(BeginDeletion) =>
    case ByOther(OtherCondition(d)) => LookupOfUpsert(gw.status.conditions, d, PROGRAMMED);
    case ByOther(OtherListenerCondition(name, d)) =>
      forall n ensures ListenerProgrammedAt(gw, n) ==> ListenerProgrammedAt(Apply(RULES, gw, c), n) {
        OtherOnListener(gw, name, d, n, PROGRAMMED);
      }
  }

  lemma {:induction false} LinkedUnique(s: GStore, i: nat)
    requires Linked(RULES, s) && i < |s.history| && UniqueStatus(s.history[0].status)
    ensures UniqueStatus(s.history[i].status)
  {
    if i > 0 {
      LinkedUnique(s, i - 1);
      CauseKeepsUnique(s.history[i - 1], s.causes[i - 1]);
      assert LinkOk(RULES, s.history[i - 1], s.causes[i - 1], s.history[i]);
    }
  }

  lemma {:induction false} LinkedNeverDowngrades(s: GStore, i: nat, j: nat)
    requires Linked(RULES, s) && i <= j < |s.history|
    ensures s.history[i].generation <= s.history[j].generation
    ensures s.history[i].generation == s.history[j].generation ==>
      s.history[i].listeners == s.history[j].listeners && NotDowngraded(s.history[i], s.history[j])
    decreases j
  {
    if i < j {
      LinkedNeverDowngrades(s, i, j - 1);
      assert LinkOk(RULES, s.history[j - 1], s.causes[j - 1], s.history[j]);
      if !IsEdit(s.causes[j - 1]) {
        CauseKeepsProgrammed(s.history[j - 1], s.causes[j - 1]);
        if s.history[i].generation == s.history[j].generation {
          forall n | HasListener(s.history[i], n) && ListenerProgrammedAt(s.history[i], n)
            ensures ListenerProgrammedAt(s.history[j], n)
          {
            assert HasListener(s.history[j - 1], n);
          }
        }
      }
    }
  }

  predicate IsAccept(c: GCause) {
    c.ByWriter? && c.op.AcceptOp?
  }

  predicate IsProgram(c: GCause) {
    c.ByWriter? && c.op.ProgramOp?
  }

  lemma OnlyProgramMakesProgrammed(gw: Gateway, c: GCause)
    requires (c.ByOther? ==> Legal(c.change)) && BecomesProgrammed(gw, Apply(RULES, gw, c))
    ensures IsProgram(c)
  {
    match c
    case ByWriter(_, op, now) => TransformProgrammed(gw, op, now);
    case ByOther(SpecEdit(_, _, _, _)) =>
    case ByOther(BeginDeletion) =>
    case ByOther(OtherCondition(d)) => LookupOfUpsert(gw.status.conditions, d, PROGRAMMED);
    case ByOther(OtherListenerCondition(_, _)) =>
  }

  lemma AcceptDropsUnlisted(gw: Gateway, now: int, name: string)
    requires !HasListener(gw, name)
    ensures LastNamed(AcceptedStatus(gw, now).listeners, name) == None
  {
    var t := AcceptedStatus(gw, now);
    forall k | 0 <= k < |gw.listeners| ensures t.listeners[k].name == gw.listeners[k].name {
      LastNamedHasName(gw.status.listeners, gw.listeners[k].name);
    }
    LastNamedHasName(t.listeners, name);
  }

  lemma OnlyProgramMakesListenerProgrammed(gw: Gateway, c: GCause, name: string)
    requires (c.ByOther? ==> Legal(c.change)) && ListenerBecomesProgrammed(gw, Apply(RULES, gw, c), name)
    ensures IsProgram(c)
  {
    match c
    case ByWriter(_, AcceptOp, now) =>
      if HasListener(gw, name) {
        AcceptListenerProgrammed(gw, now, name);
      } else {
        AcceptDropsUnlisted(gw, now, name);
      }
    case ByWriter(_, ProgramOp(_), _) =>
    case ByWriter(_, ResolveRefsOp(n, status, reason, message), now) =>
      RefuseListenerProgrammed(gw, n, Condition(RESOLVED_REFS, status, reason, message, now, gw.generation), name);
    case ByOther(SpecEdit(_, _, _, _)) =>
    case ByOther(BeginDeletion) =>
    case ByOther(OtherCondition(_)) =>
    case ByOther(OtherListenerCondition(n, d)) => OtherOnListener(gw, n, d, name, PROGRAMMED);
  }

  /** Programmed over every run of edits, other writers and our own writers: types stay
      unique; every version committed by `MarkAccepted` mirrors the spec listeners in
      order with no Programmed=True of another generation; Programmed=True at the current
      generation, once there, is there until the generation changes; and it first
      appears, on the Gateway or on any listener, by `MarkProgrammed` only. */
  lemma ProgrammedLifecycle(states: seq<GStore>, steps: seq<GStep>, n: nat)
    requires IsRun(RULES, states, steps) && n < |states| && |states[0].history| == 1
    requires UniqueStatus(states[0].history[0].status)
    ensures var s := states[n];
      && |s.history| == |s.causes| + 1
      && (forall i :: 0 <= i < |s.history| ==> UniqueStatus(s.history[i].status))
      && (forall i :: 0 <= i < |s.causes| && IsAccept(s.causes[i]) ==>
            Mirrors(s.history[i + 1], s.history[i + 1].status) && NoStaleProgrammed(s.history[i + 1]))
      && (forall i, j :: 0 <= i <= j < |s.history| && s.history[i].generation == s.history[j].generation ==>
            NotDowngraded(s.history[i], s.history[j]))
      && (forall i :: 0 <= i < |s.causes| && BecomesProgrammed(s.history[i], s.history[i + 1]) ==>
            IsProgram(s.causes[i]))
      && (forall i :: 0 <= i < |s.causes| && SomeListenerBecomesProgrammed(s.history[i], s.history[i + 1]) ==>
            IsProgram(s.causes[i]))
  {
    RunKeepsInv(RULES, states, steps, n);
    var s := states[n];
    assert s.history[0] == states[0].history[0];
    forall i | 0 <= i < |s.history| ensures UniqueStatus(s.history[i].status) {
      LinkedUnique(s, i);
    }
    forall i | 0 <= i < |s.causes| && IsAccept(s.causes[i])
      ensures Mirrors(s.history[i + 1], s.history[i + 1].status) && NoStaleProgrammed(s.history[i + 1])
    {
      assert LinkOk(RULES, s.history[i], s.causes[i], s.history[i + 1]);
      AcceptedStatusFacts(s.history[i], s.causes[i].env);
    }
    forall i, j | 0 <= i <= j < |s.history| && s.history[i].generation == s.history[j].generation
      ensures NotDowngraded(s.history[i], s.history[j])
    {
      LinkedNeverDowngrades(s, i, j);
    }
    forall i | 0 <= i < |s.causes| && BecomesProgrammed(s.history[i], s.history[i + 1]) ensures IsProgram(s.causes[i]) {
      assert LinkOk(RULES, s.history[i], s.causes[i], s.history[i + 1]);
      OnlyProgramMakesProgrammed(s.history[i], s.causes[i]);
    }
    forall i | 0 <= i < |s.causes| && SomeListenerBecomesProgrammed(s.history[i], s.history[i + 1])
      ensures IsProgram(s.causes[i])
    {
      assert LinkOk(RULES, s.history[i], s.causes[i], s.history[i + 1]);
      var name :| ListenerBecomesProgrammed(s.history[i], s.history[i + 1], name);
      OnlyProgramMakesListenerProgrammed(s.history[i], s.causes[i], name);
    }
  }

  /** The version that a successful `MarkAccepted` leaves or finds. */
  function AcceptedVersion(o: Outcome): int {
    match o
    case Committed(i) => i + 1
    case Unchanged(v) => v
    case _ => -1
  }

  /** Every `MarkAccepted` that reports success, by a write or by finding nothing to change,
      vouches for a version of the Gateway that mirrors the spec, has Accepted=True at its
      generation and no Programmed=True of another. */
  lemma AcceptedIsMirrored(states: seq<GStore>, steps: seq<GStep>, n: nat, id: nat)
    requires IsRun(RULES, states, steps) && n < |states| && |states[0].history| == 1
    requires UniqueStatus(states[0].history[0].status)
    requires id in states[n].writers && states[n].writers[id].op.AcceptOp?
    requires states[n].writers[id].phase.Finished? && !states[n].writers[id].phase.outcome.GaveUp?
    requires !states[n].writers[id].phase.outcome.Errored?
    ensures var s, v := states[n], AcceptedVersion(states[n].writers[id].phase.outcome);
      && 0 <= v < |s.history| && Mirrors(s.history[v], s.history[v].status) && NoStaleProgrammed(s.history[v])
      && AcceptedNow(s.history[v])
  {
    RunKeepsInv(RULES, states, steps, n);
    var s := states[n];
    assert s.history[0] == states[0].history[0];
    assert WriterOk(RULES, s, id, s.writers[id]);
    match s.writers[id].phase.outcome
    case Committed(i) =>
      LinkedUnique(s, i);
      assert LinkOk(RULES, s.history[i], s.causes[i], s.history[i + 1]);
      AcceptedByTransform(s.history[i], s.causes[i].env);
    case Unchanged(v) =>
      LinkedUnique(s, v);
      var now :| RULES.transform(s.history[v], s.writers[id].op, now) == Some(s.history[v]);
      AcceptedByTransform(s.history[v], now);
  }

  lemma AcceptedByTransform(gw: Gateway, now: int)
    requires UniqueStatus(gw.status)
    ensures var r := Transform(gw, AcceptOp, now);
      && Mirrors(r, r.status) && NoStaleProgrammed(r) && AcceptedNow(r)
  {
    AcceptedStatusFacts(gw, now);
    AcceptedIsThorough(gw, now);
    LookupHasKind(gw.status.conditions, "Programmed");
    var r := Transform(gw, AcceptOp, now);
    forall i | 0 <= i < |gw.listeners| ensures AcceptedListenerNow(r, i) {
      assert AcceptedListener(gw, gw.listeners[i], r.status.listeners[i]);
    }
  }

  /** Programmed is True at the generation, or Unknown and pending at it. */
  predicate ProgrammedOrPending(cs: seq<Condition>, generation: int) {
    var p := Lookup(cs, "Programmed");
    || (p.Some? && p.value.status == ConditionTrue && p.value.observedGeneration == generation)
    || Shows(cs, "Programmed", ConditionUnknown, "Pending", "Waiting for agentgateway data plane", generation)
  }

  predicate AcceptedListenerNow(gw: Gateway, i: int) {
    && 0 <= i < |gw.listeners| && i < |gw.status.listeners|
    && var ls := gw.status.listeners[i];
      && ls.name == gw.listeners[i].name && Advertises(ls, gw.listeners[i].protocol)
      && Shows(ls.conditions, "Accepted", ConditionTrue, "Accepted", "Accepted", gw.generation)
      && Shows(ls.conditions, "ResolvedRefs", ConditionTrue, "ResolvedRefs", "Resolved listener references",
               gw.generation)
      && ProgrammedOrPending(ls.conditions, gw.generation)
  }

  /** The Gateway and each of its listeners are shown as accepted at the current generation. */
  predicate AcceptedNow(gw: Gateway) {
    && Shows(gw.status.conditions, "Accepted", ConditionTrue, "Accepted", "Accepted by appnet-gateway.controller",
             gw.generation)
    && ProgrammedOrPending(gw.status.conditions, gw.generation)
    && forall i :: 0 <= i < |gw.listeners| ==> AcceptedListenerNow(gw, i)
  }

  predicate BecomesProgrammed(before: Gateway, after: Gateway) {
    && !ProgrammedAt(before.status.conditions, after.generation)
    && ProgrammedAt(after.status.conditions, after.generation)
  }

  predicate ListenerBecomesProgrammed(before: Gateway, after: Gateway, name: string) {
    !ListenerClaims(before, name, after.generation) && ListenerClaims(after, name, after.generation)
  }

  ghost predicate SomeListenerBecomesProgrammed(before: Gateway, after: Gateway) {
    exists name :: ListenerBecomesProgrammed(before, after, name)
  }

  predicate NoStaleProgrammed(gw: Gateway) {
    && ProgrammedIsCurrent(gw.status.conditions, gw.generation)
    && forall k :: 0 <= k < |gw.status.listeners| ==>
      ProgrammedIsCurrent(gw.status.listeners[k].conditions, gw.generation)
  }

  ghost predicate NotDowngraded(earlier: Gateway, later: Gateway) {
    && (ProgrammedAt(earlier.status.conditions, earlier.generation) ==>
      ProgrammedAt(later.status.conditions, later.generation))
    && forall n :: HasListener(earlier, n) && ListenerProgrammedAt(earlier, n) ==> ListenerProgrammedAt(later, n)
  }

  // ----- listener conditions of other controllers -----

  /** What another controller's change to a listener of this name leaves in its status. */
  lemma OtherOnListener(gw: Gateway, name: string, d: Condition, n: string, kind: string)
    ensures var r := ApplyChange(gw, OtherListenerCondition(name, d));
      && (LastNamed(gw.status.listeners, n).Some? <==> LastNamed(r.status.listeners, n).Some?)
      && (kind != d.kind || n != name ==>
        Lookup(PreviousConditions(r, n), kind) == Lookup(PreviousConditions(gw, n), kind))
      && (LastNamed(gw.status.listeners, n).Some? && n == name ==>
            PreviousConditions(r, n) == Upsert(PreviousConditions(gw, n), d))
  {
    var ls := gw.status.listeners;
    var i := LastNamedPointwise(ls, UpsertNamed(ls, name, d), n);
    if i >= 0 {
      LastNamedHasName(ls, n);
      LookupOfUpsert(ls[i].conditions, d, kind);
    }
  }

  lemma AcceptKeepsOtherListener(gw: Gateway, now: int, name: string, kind: string)
    requires HasListener(gw, name) && !OwnListenerKind(kind)
    ensures var r := Transform(gw, AcceptOp, now);
      && LastNamed(r.status.listeners, name).Some?
      && Lookup(PreviousConditions(r, name), kind) == Lookup(PreviousConditions(gw, name), kind)
  {
    var t := AcceptedStatus(gw, now);
    forall k | 0 <= k < |gw.listeners| ensures t.listeners[k].name == gw.listeners[k].name {
      LastNamedHasName(gw.status.listeners, gw.listeners[k].name);
    }
    var i :| 0 <= i < |gw.listeners| && gw.listeners[i].name == name;
    var j := LastNamedIndex(t.listeners, i);
    AcceptListenerKeepsOther(PreviousConditions(gw, name), gw.generation, now, kind);
  }

  lemma RefuseKeepsOtherListener(gw: Gateway, n: string, c: Condition, name: string, kind: string)
    requires c.kind != kind
    ensures var r := gw.(status := gw.status.(listeners := UpsertFirstNamed(gw.status.listeners, n, c)));
      && (LastNamed(gw.status.listeners, name).Some? <==> LastNamed(r.status.listeners, name).Some?)
      && Lookup(PreviousConditions(r, name), kind) == Lookup(PreviousConditions(gw, name), kind)
  {
    var ls, rs := gw.status.listeners, UpsertFirstNamed(gw.status.listeners, n, c);
    if ls != [] {
      UpsertFirstNamedFacts(ls, n, c, 0);
      forall k | 0 <= k < |ls| ensures rs[k].name == ls[k].name {
        UpsertFirstNamedFacts(ls, n, c, k);
      }
      var i := LastNamedPointwise(ls, rs, name);
      if i >= 0 {
        UpsertFirstNamedFacts(ls, n, c, i);
        LookupOfUpsert(ls[i].conditions, c, kind);
      }
    }
  }

  lemma TransformKeepsOtherListener(gw: Gateway, op: Op, now: int, name: string, kind: string)
    requires HasListener(gw, name) && LastNamed(gw.status.listeners, name).Some? && !OwnListenerKind(kind)
    ensures var r := Transform(gw, op, now);
      && LastNamed(r.status.listeners, name).Some?
      && Lookup(PreviousConditions(r, name), kind) == Lookup(PreviousConditions(gw, name), kind)
  {
    match op
    case AcceptOp => AcceptKeepsOtherListener(gw, now, name, kind);
    case ProgramOp(_) =>
      var i := LastNamedPointwise(gw.status.listeners, NewStatus(gw, op, now).listeners, name);
      LookupOfUpsert(gw.status.listeners[i].conditions, ListenerProgrammed(gw.generation, now), kind);
    case ResolveRefsOp(n, status, reason, message) =>
      var c := Condition(RESOLVED_REFS, status, reason, message, now, gw.generation);
      RefuseKeepsOtherListener(gw, n, c, name, kind);
  }

  /** A listener's conditions as they would be if, of the causes from `i` up to `j`, only
      those of other controllers had written. */
  function ReplayOthersOn(name: string, cs: seq<Condition>, causes: seq<GCause>, i: nat, j: nat): seq<Condition>
    requires i <= j <= |causes|
    decreases j
  {
    if i == j then cs else OthersOnlyOn(name, ReplayOthersOn(name, cs, causes, i, j - 1), causes[j - 1])
  }

  function OthersOnlyOn(name: string, cs: seq<Condition>, c: GCause): seq<Condition> {
    if c.ByOther? && c.change.OtherListenerCondition? && c.change.name == name then
      Upsert(cs, c.change.condition)
    else cs
  }

  lemma CauseKeepsOtherListener(gw: Gateway, cs: seq<Condition>, c: GCause, after: Gateway, name: string, kind: string)
    requires LinkOk(RULES, gw, c, after) && HasListener(gw, name) && LastNamed(gw.status.listeners, name).Some?
    requires !OwnListenerKind(kind) && Lookup(PreviousConditions(gw, name), kind) == Lookup(cs, kind)
    ensures LastNamed(after.status.listeners, name).Some?
    ensures Lookup(PreviousConditions(after, name), kind) == Lookup(OthersOnlyOn(name, cs, c), kind)
  {
    match c
    case ByWriter(_, op, now) => TransformKeepsOtherListener(gw, op, now, name, kind);
    case ByOther(SpecEdit(_, _, _, _)) =>
    case ByOther(BeginDeletion) =>
    case ByOther(OtherCondition(_)) =>
    case ByOther(OtherListenerCondition(n, d)) =>
      OtherOnListener(gw, n, d, name, kind);
      LookupOfUpsert(cs, d, kind);
      LookupOfUpsert(PreviousConditions(gw, name), d, kind);
  }

  /** The listener is in the spec of every version from `i` up to `j`. */
  predicate StaysInSpec(history: seq<Gateway>, i: int, j: int, name: string) {
    forall k :: 0 <= i <= k < j <= |history| ==> HasListener(history[k], name)
  }

  lemma StaysShorter(history: seq<Gateway>, i: nat, j: nat, name: string)
    requires StaysInSpec(history, i, j, name) && i < j <= |history|
    ensures StaysInSpec(history, i, j - 1, name) && HasListener(history[j - 1], name)
  {
  }

  lemma LinkKeepsOtherListener(s: GStore, k: nat, cs: seq<Condition>, name: string, kind: string)
    requires Linked(RULES, s) && k < |s.causes| && !OwnListenerKind(kind) && HasListener(s.history[k], name)
    requires LastNamed(s.history[k].status.listeners, name).Some?
    requires Lookup(PreviousConditions(s.history[k], name), kind) == Lookup(cs, kind)
    ensures LastNamed(s.history[k + 1].status.listeners, name).Some?
    ensures Lookup(PreviousConditions(s.history[k + 1], name), kind) ==
            Lookup(OthersOnlyOn(name, cs, s.causes[k]), kind)
  {
    CauseKeepsOtherListener(s.history[k], cs, s.causes[k], s.history[k + 1], name, kind);
  }

  lemma {:induction false} LinkedKeepsOtherListener(s: GStore, i: nat, j: nat, name: string, kind: string)
    requires Linked(RULES, s) && i <= j < |s.history| && !OwnListenerKind(kind) && StaysInSpec(s.history, i, j, name)
    requires LastNamed(s.history[i].status.listeners, name).Some?
    ensures LastNamed(s.history[j].status.listeners, name).Some?
    ensures Lookup(PreviousConditions(s.history[j], name), kind) ==
            Lookup(ReplayOthersOn(name, PreviousConditions(s.history[i], name), s.causes, i, j), kind)
    decreases j
  {
    if i < j {
      StaysShorter(s.history, i, j, name);
      LinkedKeepsOtherListener(s, i, j - 1, name, kind);
      var cs := ReplayOthersOn(name, PreviousConditions(s.history[i], name), s.causes, i, j - 1);
      LinkKeepsOtherListener(s, j - 1, cs, name, kind);
    }
  }

  /** The same for every listener that stays in the spec: once it has a status, its
      conditions of types we do not own are exactly what the other controllers' writes
      alone would have left, through every `MarkAccepted`, which rebuilds the list. */
  lemma OtherListenerConditionsSurvive(states: seq<GStore>, steps: seq<GStep>, n: nat, i: nat, j: nat, name: string,
                                       kind: string)
    requires IsRun(RULES, states, steps) && n < |states| && i <= j < |states[n].history| && !OwnListenerKind(kind)
    requires StaysInSpec(states[n].history, i, j, name) && LastNamed(states[n].history[i].status.listeners, name).Some?
    ensures var s := states[n];
      && |s.history| == |s.causes| + 1
      && LastNamed(s.history[j].status.listeners, name).Some?
      && Lookup(PreviousConditions(s.history[j], name), kind) ==
         Lookup(ReplayOthersOn(name, PreviousConditions(s.history[i], name), s.causes, i, j), kind)
  {
    RunKeepsInv(RULES, states, steps, n);
    LinkedKeepsOtherListener(states[n], i, j, name, kind);
  }

  // ----- status writes do not feed the loop -----

  /** `objectChanged`, for two Gateways. */
  predicate ObjectChanged(before: Gateway, after: Gateway) {
    before.generation != after.generation || before.deleting != after.deleting
  }

  predicate EditedBetween(causes: seq<GCause>, i: int, j: int) {
    exists k :: 0 <= i <= k < j <= |causes| && IsEdit(causes[k])
  }

  predicate DeletedBetween(causes: seq<GCause>, i: int, j: int) {
    exists k :: 0 <= i <= k < j <= |causes| && IsDeletion(causes[k])
  }

  predicate IsDeletion(c: GCause) {
    c.ByOther? && c.change.BeginDeletion?
  }

  lemma DeletedStep(causes: seq<GCause>, i: nat, j: nat)
    requires i < j <= |causes|
    ensures DeletedBetween(causes, i, j) <==> DeletedBetween(causes, i, j - 1) || IsDeletion(causes[j - 1])
  {
    if DeletedBetween(causes, i, j - 1) {
      var k :| i <= k < j - 1 && IsDeletion(causes[k]);
      assert DeletedBetween(causes, i, j);
    }
  }

  lemma {:induction false} LinkedFiltered(s: GStore, i: nat, j: nat)
    requires Linked(RULES, s) && i <= j < |s.history|
    ensures s.history[i].generation <= s.history[j].generation
    ensures EditedBetween(s.causes, i, j) <==> s.history[i].generation < s.history[j].generation
    ensures !EditedBetween(s.causes, i, j) ==>
      (s.history[j].deleting <==> s.history[i].deleting || DeletedBetween(s.causes, i, j))
    decreases j
  {
    if i < j {
      LinkedFiltered(s, i, j - 1);
      assert LinkOk(RULES, s.history[j - 1], s.causes[j - 1], s.history[j]);
      if IsEdit(s.causes[j - 1]) {
        assert EditedBetween(s.causes, i, j);
      }
      if EditedBetween(s.causes, i, j - 1) {
        var k :| i <= k < j - 1 && IsEdit(s.causes[k]);
        assert EditedBetween(s.causes, i, j);
      }
      DeletedStep(s.causes, i, j);
    }
  }

  /** An update event, from any version to any later one since informers may skip some,
      passes the filter exactly when a commit in between edited the spec or began the
      deletion of a Gateway that was not being deleted. So no status write, ours or
      another's, and no number of them, ever enqueues the Gateway. */
  lemma StatusWritesAreFiltered(states: seq<GStore>, steps: seq<GStep>, n: nat, i: nat, j: nat)
    requires IsRun(RULES, states, steps) && n < |states| && i <= j < |states[n].history|
    ensures ObjectChanged(states[n].history[i], states[n].history[j]) <==>
      || EditedBetween(states[n].causes, i, j)
      || (!states[n].history[i].deleting && DeletedBetween(states[n].causes, i, j))
  {
    RunKeepsInv(RULES, states, steps, n);
    LinkedFiltered(states[n], i, j);
  }
}
