/** Whole runs of `Reconcile`: any number of calls for one Gateway, one step per client
    call, interleaved with edits, deletion and re-creation of the Gateway and with other
    status writers. Reads from the clusters return whatever the step says they do. */
module ReconcileRuns {
  import opened GatewayApi
  import opened Conditions
  import opened GatewayStatuses
  import opened TlsAssets

  /** Where a call is. `Provisioning` counts the applies of ServiceAccount, token Secret,
      Deployment and Service. */
  datatype Stage =
    | Reading
    | Classifying
    | Accepting
    | Validating(passed: nat)
    | Refusing(check: Check, reason: string)
    | Provisioning(applied: nat)
    | RefreshingIstiod
    | AwaitingReplica
    | AwaitingAddress
    | Rereading(addresses: seq<Address>)
    | Programming(addresses: seq<Address>)
    | MarkingRoutes
    | CleaningUp
    | Finished(ok: bool)

  /** `read` is the spec revision that the call read at its start. */
  datatype Call = Call(stage: Stage, read: nat)

  /** What a call has read, checked and written. `AcceptDone` also when there was nothing to
      write; `AppliedObject` counts like `Provisioning`. */
  datatype Event =
    | SawGateway(id: nat, revision: nat)
    | SawMissing(id: nat)
    | Classified(id: nat, lookups: World)
    | AcceptDone(id: nat)
    | CheckPassed(id: nat, check: Check, lookups: World)
    | CheckFailed(id: nat, check: Check, lookups: World)
    | RefusedListener(id: nat, read: nat, check: Check, reason: string)
    | AppliedObject(id: nat, which: nat)
    | IstiodRefreshed(id: nat)
    | CleanedUpAll(id: nat)
    | SawAgain(id: nat)
    | CallFailed(id: nat)
    | SawReplica(id: nat)
    | SawAddresses(id: nat, addresses: seq<Address>)
    | WroteProgrammed(id: nat, read: nat, revision: nat, addresses: seq<Address>)

  /** `revisions` are the specs the Gateway has had, newest last; a re-created Gateway is a
      new revision whose generation starts again. `status` belongs to the newest. */
  datatype State = State(
    revisions: seq<Gateway>,
    live: bool,
    status: GatewayStatus,
    calls: map<nat, Call>,
    log: seq<Event>)

  datatype Step =
    | Begin(id: nat)
    | ReadFound(id: nat, revision: nat)
    | ReadMissing(id: nat)
    | Classify(id: nat, lookups: World)
    | Accept(id: nat, now: int)
    | SkipAccept(id: nat)
    | PassCheck(id: nat, lookups: World)
    | FailCheck(id: nat, lookups: World)
    | FinishChecks(id: nat)
    | Refuse(id: nat, message: string, now: int)
    | ApplyNext(id: nat)
    | RefreshDone(id: nat)
    | SeeReplica(id: nat)
    | SeeAddresses(id: nat, addresses: seq<Address>)
    | Reread(id: nat, found: bool)
    | Program(id: nat, now: int)
    | SkipProgram(id: nat)
    | RoutesMarked(id: nat)
    | CleanedUp(id: nat)
    | Fail(id: nat)
    | Edit(className: string, listeners: seq<Listener>, clientCert: Option<SecretRef>, deleting: bool)
    | Remove
    | Recreate(className: string, listeners: seq<Listener>, clientCert: Option<SecretRef>)
    | OtherStatus(condition: Condition)
    | OtherListenerStatus(name: string, condition: Condition)

  function Newest(s: State): Gateway
    requires s.revisions != []
  {
    s.revisions[|s.revisions| - 1].(status := s.status)
  }

  predicate At(s: State, id: nat, stage: Stage) {
    id in s.calls && s.calls[id].stage == stage && s.calls[id].read < |s.revisions|
  }

  function Spec(s: State, id: nat): Gateway
    requires id in s.calls && s.calls[id].read < |s.revisions|
  {
    s.revisions[s.calls[id].read]
  }

  /** The call has a next check to make. */
  predicate HasCheck(s: State, id: nat) {
    && id in s.calls && s.calls[id].stage.Validating? && s.calls[id].read < |s.revisions|
    && s.calls[id].stage.passed < |Checks(Spec(s, id))|
  }

  function NextCheck(s: State, id: nat): Check
    requires HasCheck(s, id)
  {
    Checks(Spec(s, id))[s.calls[id].stage.passed]
  }

  /** What validation makes of the next check, given what its lookups returned. */
  function Finding(s: State, id: nat, lookups: World): Option<string>
    requires HasCheck(s, id)
  {
    Problem(lookups, Spec(s, id).key.namespace, NextCheck(s, id))
  }

  /** An error that `Reconcile` returns ends the call; later stages only log theirs. */
  predicate CanFail(stage: Stage) {
    || stage.Reading? || stage.Classifying? || stage.Accepting? || stage.Refusing? || stage.Provisioning?
    || stage.AwaitingReplica? || stage.AwaitingAddress? || stage.CleaningUp?
  }

  predicate Enabled(s: State, step: Step) {
    s.revisions != [] &&
    match step
    case Begin(id) => id !in s.calls
    case ReadFound(id, revision) => id in s.calls && s.calls[id].stage == Reading && revision < |s.revisions|
    case ReadMissing(id) => id in s.calls && s.calls[id].stage == Reading
    case Classify(id, lookups) => At(s, id, Classifying) && IsOurs(lookups, Spec(s, id)).Some?
    case Accept(id, _) => At(s, id, Accepting) && s.live
    case SkipAccept(id) => At(s, id, Accepting)
    case PassCheck(id, lookups) => HasCheck(s, id) && Finding(s, id, lookups) == None
    case FailCheck(id, lookups) => HasCheck(s, id) && Finding(s, id, lookups).Some?
    case FinishChecks(id) =>
      && id in s.calls && s.calls[id].stage.Validating? && s.calls[id].read < |s.revisions|
      && s.calls[id].stage.passed == |Checks(Spec(s, id))|
    case Refuse(id, _, _) =>
      id in s.calls && s.calls[id].stage.Refusing? && !s.calls[id].stage.check.ClientCert? && s.live
    case ApplyNext(id) => id in s.calls && s.calls[id].stage.Provisioning?
    case RefreshDone(id) => id in s.calls && s.calls[id].stage == RefreshingIstiod
    case SeeReplica(id) => id in s.calls && s.calls[id].stage == AwaitingReplica
    case SeeAddresses(id, addresses) => id in s.calls && s.calls[id].stage == AwaitingAddress && addresses != []
    case Reread(id, _) => id in s.calls && s.calls[id].stage.Rereading?
    case Program(id, _) => id in s.calls && s.calls[id].stage.Programming? && s.live
    case SkipProgram(id) => id in s.calls && s.calls[id].stage.Programming?
    case RoutesMarked(id) => id in s.calls && s.calls[id].stage == MarkingRoutes
    case CleanedUp(id) => id in s.calls && s.calls[id].stage == CleaningUp
    case Fail(id) => id in s.calls && CanFail(s.calls[id].stage)
    case Edit(_, _, _, _) => s.live
    case Remove => s.live
    case Recreate(_, _, _) => !s.live
    case OtherStatus(c) => s.live && c.kind != ACCEPTED && c.kind != PROGRAMMED
    case OtherListenerStatus(_, c) => s.live && !OwnListenerKind(c.kind)
  }

  function To(s: State, id: nat, stage: Stage): State
    requires id in s.calls
  {
    s.(calls := s.calls[id := s.calls[id].(stage := stage)])
  }

  const EMPTY_STATUS := GatewayStatus([], [], [])

  function Do(s: State, step: Step): State
    requires Enabled(s, step)
  {
    match step
    case Begin(id) => s.(calls := s.calls[id := Call(Reading, 0)])
    case ReadFound(id, revision) =>
      s.(calls := s.calls[id := Call(Classifying, revision)], log := s.log + [SawGateway(id, revision)])
    case ReadMissing(id) => To(s, id, CleaningUp).(log := s.log + [SawMissing(id)])
    case Classify(id, lookups) =>
      To(s, id, if IsOurs(lookups, Spec(s, id)).value then Accepting else CleaningUp).(
        log := s.log + [Classified(id, lookups)])
    case Accept(id, now) =>
      To(s, id, Validating(0)).(status := AcceptedStatus(Newest(s), now), log := s.log + [AcceptDone(id)])
    case SkipAccept(id) => To(s, id, Validating(0)).(log := s.log + [AcceptDone(id)])
    case PassCheck(id, lookups) =>
      To(s, id, Validating(s.calls[id].stage.passed + 1)).(log := s.log + [CheckPassed(id, NextCheck(s, id), lookups)])
    case FailCheck(id, lookups) =>
      var check := NextCheck(s, id);
      To(s, id, if check.ClientCert? then Finished(false) else Refusing(check, Finding(s, id, lookups).value)).(
        log := s.log + [CheckFailed(id, check, lookups)])
    case FinishChecks(id) => To(s, id, Provisioning(0))
    case Refuse(id, message, now) =>
      var stage := s.calls[id].stage;
      To(s, id, Finished(false)).(
        status := ResolvedRefsStatus(Newest(s), stage.check.listener, ConditionFalse, stage.reason, message, now),
        log := s.log + [RefusedListener(id, s.calls[id].read, stage.check, stage.reason)])
    case ApplyNext(id) =>
      var n := s.calls[id].stage.applied;
      To(s, id, if n < 3 then Provisioning(n + 1) else RefreshingIstiod).(log := s.log + [AppliedObject(id, n)])
    case RefreshDone(id) => To(s, id, AwaitingReplica).(log := s.log + [IstiodRefreshed(id)])
    case SeeReplica(id) => To(s, id, AwaitingAddress).(log := s.log + [SawReplica(id)])
    case SeeAddresses(id, addresses) => To(s, id, Rereading(addresses)).(log := s.log + [SawAddresses(id, addresses)])
    case Reread(id, found) =>
      if found then To(s, id, Programming(s.calls[id].stage.addresses)).(log := s.log + [SawAgain(id)])
      else To(s, id, Finished(true))
    case Program(id, now) =>
      var addresses := s.calls[id].stage.addresses;
      To(s, id, MarkingRoutes).(
        status := ProgrammedStatus(Newest(s), addresses, now),
        log := s.log + [WroteProgrammed(id, s.calls[id].read, |s.revisions| - 1, addresses)])
    case SkipProgram(id) => To(s, id, MarkingRoutes)
    case RoutesMarked(id) => To(s, id, Finished(true))
    case CleanedUp(id) => To(s, id, Finished(true)).(log := s.log + [CleanedUpAll(id)])
    case Fail(id) => To(s, id, Finished(false)).(log := s.log + [CallFailed(id)])
    case Edit(className, listeners, clientCert, deleting) =>
      var gw := s.revisions[|s.revisions| - 1];
      var edited := gw.(generation := gw.generation + 1, className := className, listeners := listeners,
                        clientCert := clientCert, deleting := deleting);
      s.(revisions := s.revisions + [edited])
    case Remove => s.(live := false)
    case Recreate(className, listeners, clientCert) =>
      var gw := s.revisions[|s.revisions| - 1];
      s.(revisions := s.revisions + [Gateway(gw.key, 1, false, className, listeners, clientCert, EMPTY_STATUS)],
         live := true, status := EMPTY_STATUS)
    case OtherStatus(c) => s.(status := s.status.(conditions := Upsert(s.status.conditions, c)))
    case OtherListenerStatus(name, c) =>
      s.(status := s.status.(listeners := UpsertNamed(s.status.listeners, name, c)))
  }

  /** Programmed=True at a generation, on the Gateway or on some listener. */
  predicate Claims(status: GatewayStatus, generation: int) {
    || ProgrammedAt(status.conditions, generation)
    || exists i :: 0 <= i < |status.listeners| && ProgrammedAt(status.listeners[i].conditions, generation)
  }

  ghost predicate Init(s: State) {
    |s.revisions| == 1 && s.calls == map[] && s.log == [] && forall g :: !Claims(s.status, g)
  }

  ghost predicate IsRun(states: seq<State>, steps: seq<Step>) {
    && |states| == |steps| + 1 && Init(states[0])
    && forall i {:trigger steps[i]} :: 0 <= i < |steps| ==>
      Enabled(states[i], steps[i]) && states[i + 1] == Do(states[i], steps[i])
  }

  // ----- what a call has established -----

  /** The event records that the call found no problem with the check: the reference is a
      core Secret, permitted for the namespace, and the infra Secret has both keys. */
  predicate Passes(e: Event, id: nat, namespace: string, check: Check) {
    e.CheckPassed? && e.id == id && e.check == check && Problem(e.lookups, namespace, check) == None
  }

  predicate Passed(log: seq<Event>, id: nat, namespace: string, check: Check) {
    exists i :: 0 <= i < |log| && Passes(log[i], id, namespace, check)
  }

  predicate CheckedUpTo(log: seq<Event>, id: nat, gw: Gateway, n: int) {
    n <= |Checks(gw)| && forall k :: 0 <= k < n ==> Passed(log, id, gw.key.namespace, Checks(gw)[k])
  }

  lemma PassedGrows(a: seq<Event>, b: seq<Event>, id: nat, namespace: string, check: Check)
    requires a <= b && Passed(a, id, namespace, check)
    ensures Passed(b, id, namespace, check)
  {
    var i :| 0 <= i < |a| && Passes(a[i], id, namespace, check);
    assert b[i] == a[i];
  }

  /** How far the call's evidence reaches: 0 before validation, 1 after it, 2 with an
      available replica, 3 with addresses. */
  function Progress(stage: Stage): nat {
    match stage
    case Provisioning(_) => 1
    case RefreshingIstiod => 1
    case AwaitingReplica => 1
    case AwaitingAddress => 2
    case Rereading(_) => 3
    case Programming(_) => 3
    case MarkingRoutes => 3
    case _ => 0
  }

  ghost predicate CallOk(log: seq<Event>, revisions: seq<Gateway>, id: nat, c: Call) {
    && (!c.stage.Reading? && !c.stage.CleaningUp? && !c.stage.Finished? ==>
          c.read < |revisions| && SawGateway(id, c.read) in log)
    && (c.stage.Validating? ==> CheckedUpTo(log, id, revisions[c.read], c.stage.passed))
    && (Progress(c.stage) >= 1 ==> CheckedUpTo(log, id, revisions[c.read], |Checks(revisions[c.read])|))
    && (Progress(c.stage) >= 2 ==> SawReplica(id) in log)
    && (c.stage.Rereading? || c.stage.Programming? ==>
      c.stage.addresses != [] && SawAddresses(id, c.stage.addresses) in log)
  }

  /** The event at `j` says that Programmed was written, and before it that same call had
      read the Gateway, checked every certificate the spec it read requires, and seen an
      available replica and at least one address. */
  ghost predicate Justified(log: seq<Event>, revisions: seq<Gateway>, j: int) {
    && 0 <= j < |log| && log[j].WroteProgrammed?
    && var e := log[j];
      && e.read < |revisions| && e.revision < |revisions| && e.addresses != []
      && SawGateway(e.id, e.read) in log[..j]
      && CheckedUpTo(log[..j], e.id, revisions[e.read], |Checks(revisions[e.read])|)
      && SawReplica(e.id) in log[..j]
      && SawAddresses(e.id, e.addresses) in log[..j]
  }

  ghost predicate ProgrammedBy(s: State, j: int) {
    Justified(s.log, s.revisions, j) && s.log[j].revision == |s.revisions| - 1
  }

  ghost predicate StatusOk(s: State)
    requires s.revisions != []
  {
    forall g :: s.live && Claims(s.status, g) ==>
      && g <= Newest(s).generation
      && (g == Newest(s).generation ==> exists j :: ProgrammedBy(s, j))
  }

  ghost predicate Inv(s: State) {
    && s.revisions != []
    && (forall id :: id in s.calls ==> CallOk(s.log, s.revisions, id, s.calls[id]))
    && (forall j :: 0 <= j < |s.log| && s.log[j].WroteProgrammed? ==> Justified(s.log, s.revisions, j))
    && StatusOk(s)
  }

  lemma CheckedGrows(a: seq<Event>, b: seq<Event>, id: nat, gw: Gateway, n: int)
    requires a <= b && CheckedUpTo(a, id, gw, n)
    ensures CheckedUpTo(b, id, gw, n)
  {
    forall k | 0 <= k < n ensures Passed(b, id, gw.key.namespace, Checks(gw)[k]) {
      PassedGrows(a, b, id, gw.key.namespace, Checks(gw)[k]);
    }
  }

  lemma CallOkGrows(log: seq<Event>, log': seq<Event>, revisions: seq<Gateway>, revisions': seq<Gateway>, id: nat,
                    c: Call)
    requires log <= log' && revisions <= revisions' && CallOk(log, revisions, id, c)
    ensures CallOk(log', revisions', id, c)
  {
    assert forall e :: e in log ==> e in log';
    if c.read < |revisions| {
      assert revisions'[c.read] == revisions[c.read];
      if c.stage.Validating? {
        CheckedGrows(log, log', id, revisions[c.read], c.stage.passed);
      } else if Progress(c.stage) >= 1 {
        CheckedGrows(log, log', id, revisions[c.read], |Checks(revisions[c.read])|);
      }
    }
  }

  lemma JustifiedGrows(log: seq<Event>, log': seq<Event>, revisions: seq<Gateway>, revisions': seq<Gateway>, j: int)
    requires log <= log' && revisions <= revisions' && Justified(log, revisions, j)
    ensures Justified(log', revisions', j)
  {
    assert log'[..j] == log[..j];
  }

  lemma DoGrows(s: State, step: Step)
    requires Enabled(s, step)
    ensures s.log <= Do(s, step).log && |Do(s, step).log| <= |s.log| + 1 && s.revisions <= Do(s, step).revisions
    ensures Do(s, step).revisions != s.revisions ==> step.Edit? || step.Recreate?
  {
  }

  predicate IsEnvironment(step: Step) {
    step.Edit? || step.Remove? || step.Recreate? || step.OtherStatus? || step.OtherListenerStatus?
  }

  lemma CheckedOneMore(log: seq<Event>, e: Event, id: nat, gw: Gateway, n: nat)
    requires CheckedUpTo(log, id, gw, n) && n < |Checks(gw)| && Passes(e, id, gw.key.namespace, Checks(gw)[n])
    ensures CheckedUpTo(log + [e], id, gw, n + 1)
  {
    CheckedGrows(log, log + [e], id, gw, n);
    assert (log + [e])[|log|] == e;
  }

  lemma OwnCheck(s: State, step: Step)
    requires Enabled(s, step) && step.PassCheck? && CallOk(s.log, s.revisions, step.id, s.calls[step.id])
    ensures CallOk(Do(s, step).log, Do(s, step).revisions, step.id, Do(s, step).calls[step.id])
  {
    var gw, i := Spec(s, step.id), s.calls[step.id].stage.passed;
    var e := CheckPassed(step.id, NextCheck(s, step.id), step.lookups);
    CheckedOneMore(s.log, e, step.id, gw, i);
    assert Do(s, step).log == s.log + [e];
  }

  lemma OwnSight(s: State, step: Step)
    requires Enabled(s, step) && (step.ReadFound? || step.SeeReplica? || step.SeeAddresses?)
    requires CallOk(s.log, s.revisions, step.id, s.calls[step.id])
    ensures CallOk(Do(s, step).log, Do(s, step).revisions, step.id, Do(s, step).calls[step.id])
  {
    var t, c := Do(s, step), s.calls[step.id];
    assert t.log[|s.log|] in t.log;
    assert forall e :: e in s.log ==> e in t.log;
    if Progress(c.stage) >= 1 {
      CheckedGrows(s.log, t.log, step.id, s.revisions[c.read], |Checks(s.revisions[c.read])|);
    }
  }

  /** A stage change that adds no evidence and needs none. */
  predicate QuietChange(a: Stage, b: Stage) {
    && (b.Reading? || b.CleaningUp? || b.Finished? || (!a.Reading? && !a.CleaningUp? && !a.Finished?))
    && (b.Validating? ==> b.passed == 0)
    && Progress(b) <= Progress(a)
    && (b.Rereading? || b.Programming? ==> (a.Rereading? || a.Programming?) && a.addresses == b.addresses)
  }

  lemma QuietStep(s: State, step: Step)
    requires Enabled(s, step) && !IsEnvironment(step) && !step.Begin? && !step.PassCheck? && !step.Program?
    requires !step.ReadFound? && !step.SeeReplica? && !step.SeeAddresses? && !step.FinishChecks?
    ensures var t := Do(s, step);
      && s.log <= t.log && t.revisions == s.revisions && t.calls[step.id].read == s.calls[step.id].read
      && QuietChange(s.calls[step.id].stage, t.calls[step.id].stage)
  {
  }

  lemma QuietKeepsCall(log: seq<Event>, revisions: seq<Gateway>, id: nat, c: Call, d: Call)
    requires CallOk(log, revisions, id, c) && d.read == c.read && QuietChange(c.stage, d.stage)
    ensures CallOk(log, revisions, id, d)
  {
  }

  lemma OwnQuiet(s: State, step: Step)
    requires Enabled(s, step) && !IsEnvironment(step) && !step.Begin? && !step.PassCheck? && !step.Program?
    requires !step.ReadFound? && !step.SeeReplica? && !step.SeeAddresses?
    requires CallOk(s.log, s.revisions, step.id, s.calls[step.id])
    ensures CallOk(Do(s, step).log, Do(s, step).revisions, step.id, Do(s, step).calls[step.id])
  {
    if !step.FinishChecks? {
      QuietStep(s, step);
      CallOkGrows(s.log, Do(s, step).log, s.revisions, s.revisions, step.id, s.calls[step.id]);
      QuietKeepsCall(Do(s, step).log, s.revisions, step.id, s.calls[step.id], Do(s, step).calls[step.id]);
    }
  }

  lemma OwnProgram(s: State, step: Step)
    requires Enabled(s, step) && step.Program? && CallOk(s.log, s.revisions, step.id, s.calls[step.id])
    ensures CallOk(Do(s, step).log, Do(s, step).revisions, step.id, Do(s, step).calls[step.id])
  {
    CallOkGrows(s.log, Do(s, step).log, s.revisions, s.revisions, step.id, s.calls[step.id]);
  }

  lemma OthersUntouched(s: State, step: Step, id: nat)
    requires Enabled(s, step) && id in Do(s, step).calls && (IsEnvironment(step) || step.id != id)
    ensures id in s.calls && Do(s, step).calls[id] == s.calls[id]
  {
  }

  lemma StepCalls(s: State, step: Step, id: nat)
    requires Enabled(s, step) && id in Do(s, step).calls
    requires id in s.calls ==> CallOk(s.log, s.revisions, id, s.calls[id])
    ensures CallOk(Do(s, step).log, Do(s, step).revisions, id, Do(s, step).calls[id])
  {
    if IsEnvironment(step) || step.id != id {
      OthersUntouched(s, step, id);
      DoGrows(s, step);
      CallOkGrows(s.log, Do(s, step).log, s.revisions, Do(s, step).revisions, id, s.calls[id]);
    } else if step.PassCheck? {
      OwnCheck(s, step);
    } else if step.ReadFound? || step.SeeReplica? || step.SeeAddresses? {
      OwnSight(s, step);
    } else if step.Program? {
      OwnProgram(s, step);
    } else if !step.Begin? {
      OwnQuiet(s, step);
    }
  }

  lemma NewJustified(s: State, step: Step)
    requires Enabled(s, step) && step.Program? && CallOk(s.log, s.revisions, step.id, s.calls[step.id])
    ensures Justified(Do(s, step).log, Do(s, step).revisions, |s.log|)
  {
    assert Do(s, step).log[..|s.log|] == s.log;
  }

  lemma StepJustified(s: State, step: Step, j: int)
    requires Inv(s) && Enabled(s, step) && 0 <= j < |Do(s, step).log| && Do(s, step).log[j].WroteProgrammed?
    ensures Justified(Do(s, step).log, Do(s, step).revisions, j)
  {
    DoGrows(s, step);
    var t := Do(s, step);
    if j < |s.log| {
      assert t.log[j] == s.log[j];
      JustifiedGrows(s.log, t.log, s.revisions, t.revisions, j);
    } else {
      assert step.Program? && j == |s.log|;
      NewJustified(s, step);
    }
  }

  // ----- where Programmed=True can come from -----

  lemma PendNeverClaims(cs: seq<Condition>, generation: int, now: int, g: int)
    requires ProgrammedAt(KeepOrPend(cs, generation, now), g)
    ensures ProgrammedAt(cs, g)
  {
    LookupOfUpsert(cs, Pending(generation, now), PROGRAMMED);
  }

  lemma AcceptNeverClaims(gw: Gateway, now: int, g: int)
    requires Claims(AcceptedStatus(gw, now), g)
    ensures Claims(gw.status, g)
  {
    var t := AcceptedStatus(gw, now);
    if ProgrammedAt(t.conditions, g) {
      PendNeverClaims(Upsert(gw.status.conditions, GatewayAccepted(gw.generation, now)), gw.generation, now, g);
      LookupOfUpsert(gw.status.conditions, GatewayAccepted(gw.generation, now), PROGRAMMED);
    } else {
      var i :| 0 <= i < |t.listeners| && ProgrammedAt(t.listeners[i].conditions, g);
      var n := gw.listeners[i].name;
      LastNamedHasName(gw.status.listeners, n);
      var ls := LastNamed(gw.status.listeners, n).GetOr(ListenerStatus(n, [], 0, []));
      var a := Upsert(ls.conditions, ListenerAccepted(gw.generation, now));
      LookupOfUpsert(ls.conditions, ListenerAccepted(gw.generation, now), PROGRAMMED);
      LookupOfUpsert(KeepOrPend(a, gw.generation, now), ListenerResolved(gw.generation, now), PROGRAMMED);
      PendNeverClaims(a, gw.generation, now, g);
      var k :| 0 <= k < |gw.status.listeners| && gw.status.listeners[k] == ls;
      assert ProgrammedAt(gw.status.listeners[k].conditions, g);
    }
  }

  lemma {:induction false} RefuseListenersNeverClaim(ls: seq<ListenerStatus>, name: string, c: Condition, g: int,
                                                     i: nat)
    requires c.kind == RESOLVED_REFS && i < |UpsertFirstNamed(ls, name, c)|
    requires ProgrammedAt(UpsertFirstNamed(ls, name, c)[i].conditions, g)
    ensures i < |ls| && ProgrammedAt(ls[i].conditions, g)
  {
    var r := UpsertFirstNamed(ls, name, c);
    if ls[0].name == name {
      if i == 0 {
        LookupOfUpsert(ls[0].conditions, c, PROGRAMMED);
      }
    } else if i > 0 {
      RefuseListenersNeverClaim(ls[1..], name, c, g, i - 1);
    }
  }

  lemma RefuseNeverClaims(gw: Gateway, name: string, status: ConditionStatus, reason: string, message: string,
                          now: int, g: int)
    requires Claims(ResolvedRefsStatus(gw, name, status, reason, message, now), g)
    ensures Claims(gw.status, g)
  {
    var t := ResolvedRefsStatus(gw, name, status, reason, message, now);
    if !ProgrammedAt(t.conditions, g) {
      var i :| 0 <= i < |t.listeners| && ProgrammedAt(t.listeners[i].conditions, g);
      var c := Condition(RESOLVED_REFS, status, reason, message, now, gw.generation);
      RefuseListenersNeverClaim(gw.status.listeners, name, c, g, i);
    }
  }

  /** `MarkProgrammed` claims the generation it re-read, and no other. */
  lemma ProgramClaimsCurrent(gw: Gateway, addresses: seq<Address>, now: int, g: int)
    requires Claims(ProgrammedStatus(gw, addresses, now), g)
    ensures g == gw.generation
  {
    var t := ProgrammedStatus(gw, addresses, now);
    if ProgrammedAt(t.conditions, g) {
      LookupOfUpsert(gw.status.conditions, GatewayProgrammed(gw.generation, now), PROGRAMMED);
    } else {
      var i :| 0 <= i < |t.listeners| && ProgrammedAt(t.listeners[i].conditions, g);
      LookupOfUpsert(gw.status.listeners[i].conditions, ListenerProgrammed(gw.generation, now), PROGRAMMED);
    }
  }

  lemma OtherNeverClaims(status: GatewayStatus, c: Condition, g: int)
    requires c.kind != PROGRAMMED && Claims(status.(conditions := Upsert(status.conditions, c)), g)
    ensures Claims(status, g)
  {
    LookupOfUpsert(status.conditions, c, PROGRAMMED);
  }

  lemma OtherListenerNeverClaims(status: GatewayStatus, name: string, c: Condition, g: int)
    requires c.kind != PROGRAMMED && Claims(status.(listeners := UpsertNamed(status.listeners, name, c)), g)
    ensures Claims(status, g)
  {
    var ls := UpsertNamed(status.listeners, name, c);
    if !ProgrammedAt(status.conditions, g) {
      var i :| 0 <= i < |ls| && ProgrammedAt(ls[i].conditions, g);
      LookupOfUpsert(status.listeners[i].conditions, c, PROGRAMMED);
      assert ProgrammedAt(status.listeners[i].conditions, g);
    }
  }

  /** Apart from `MarkProgrammed` no step adds a claim. */
  lemma StepClaims(s: State, step: Step, g: int)
    requires Enabled(s, step) && !step.Program? && Claims(Do(s, step).status, g)
    ensures Claims(s.status, g) && !step.Recreate?
  {
    if step.Accept? {
      AcceptNeverClaims(Newest(s), step.now, g);
    } else if step.Refuse? {
      var stage := s.calls[step.id].stage;
      RefuseNeverClaims(Newest(s), stage.check.listener, ConditionFalse, stage.reason, step.message, step.now, g);
    } else if step.OtherStatus? {
      OtherNeverClaims(s.status, step.condition, g);
    } else if step.OtherListenerStatus? {
      OtherListenerNeverClaims(s.status, step.name, step.condition, g);
    }
  }

  lemma StepGeneration(s: State, step: Step)
    requires Enabled(s, step) && !step.Recreate? && Do(s, step).live
    ensures s.live
    ensures Newest(Do(s, step)).generation == Newest(s).generation + if step.Edit? then 1 else 0
  {
  }

  lemma StepStatus(s: State, step: Step, g: int)
    requires Inv(s) && Enabled(s, step) && Do(s, step).live && Claims(Do(s, step).status, g)
    ensures g <= Newest(Do(s, step)).generation
    ensures g == Newest(Do(s, step)).generation ==> exists j :: ProgrammedBy(Do(s, step), j)
  {
    var t := Do(s, step);
    DoGrows(s, step);
    if step.Program? {
      ProgramClaimsCurrent(Newest(s), s.calls[step.id].stage.addresses, step.now, g);
      StepJustified(s, step, |s.log|);
      assert ProgrammedBy(t, |s.log|);
    } else {
      StepClaims(s, step, g);
      StepGeneration(s, step);
      if g == Newest(t).generation {
        var j :| ProgrammedBy(s, j);
        JustifiedGrows(s.log, t.log, s.revisions, t.revisions, j);
        assert ProgrammedBy(t, j);
      }
    }
  }

  lemma StepKeepsInv(s: State, step: Step)
    requires Inv(s) && Enabled(s, step)
    ensures Inv(Do(s, step))
  {
    var t := Do(s, step);
    DoGrows(s, step);
    forall id | id in t.calls ensures CallOk(t.log, t.revisions, id, t.calls[id]) {
      StepCalls(s, step, id);
    }
    forall j | 0 <= j < |t.log| && t.log[j].WroteProgrammed? ensures Justified(t.log, t.revisions, j) {
      StepJustified(s, step, j);
    }
    forall g | t.live && Claims(t.status, g)
      ensures g <= Newest(t).generation && (g == Newest(t).generation ==> exists j :: ProgrammedBy(t, j))
    {
      StepStatus(s, step, g);
    }
  }

  lemma {:induction false} RunKeepsInv(states: seq<State>, steps: seq<Step>, n: nat)
    requires IsRun(states, steps) && n < |states|
    ensures Inv(states[n])
  {
    if n > 0 {
      RunKeepsInv(states, steps, n - 1);
      StepKeepsInv(states[n - 1], steps[n - 1]);
      assert states[n] == Do(states[n - 1], steps[n - 1]);
    }
  }

  /** Programmed safety. In every run, a stored Programmed=True at the Gateway's current
      generation, on the Gateway or any listener, was written at the current revision by one
      `Reconcile` call that had before then found every certificate required by the spec it
      read permitted and complete, seen an available replica and got an address. */
  lemma ProgrammedSafety(states: seq<State>, steps: seq<Step>, n: nat)
    requires IsRun(states, steps) && n < |states| && states[n].revisions != []
    requires states[n].live && Claims(states[n].status, Newest(states[n]).generation)
    ensures exists j :: ProgrammedBy(states[n], j)
  {
    RunKeepsInv(states, steps, n);
  }

  // ----- exactly when a claim is a checked one -----

  /** The call has read its spec, and this is the revision it read. */
  predicate HasRead(s: State, id: nat, revision: nat) {
    id in s.calls && !s.calls[id].stage.Reading? && s.calls[id].read == revision < |s.revisions|
  }

  /** A check that passed belongs to the spec its call read; a claim records that spec. */
  ghost predicate EventFromSpec(s: State, e: Event) {
    match e
    case CheckPassed(id, check, _) =>
      id in s.calls && HasRead(s, id, s.calls[id].read) && check in Checks(s.revisions[s.calls[id].read])
    case WroteProgrammed(id, read, _, _) => HasRead(s, id, read)
    case _ => true
  }

  ghost predicate Origin(s: State) {
    && s.revisions != []
    && (forall v :: 0 <= v < |s.revisions| ==> s.revisions[v].key == s.revisions[0].key)
    && (forall i :: 0 <= i < |s.log| ==> EventFromSpec(s, s.log[i]))
  }

  /** A call reads its spec once. */
  lemma ReadIsStable(s: State, step: Step, id: nat, revision: nat)
    requires Enabled(s, step) && HasRead(s, id, revision)
    ensures HasRead(Do(s, step), id, revision)
    ensures Do(s, step).revisions[revision] == s.revisions[revision]
  {
    DoGrows(s, step);
    if IsEnvironment(step) || step.id != id {
      UntouchedCall(s, step, id);
    } else {
      OwnReadIsStable(s, step);
    }
  }

  lemma UntouchedCall(s: State, step: Step, id: nat)
    requires Enabled(s, step) && id in s.calls && (IsEnvironment(step) || step.id != id)
    ensures id in Do(s, step).calls && Do(s, step).calls[id] == s.calls[id]
  {
  }

  lemma OwnReadIsStable(s: State, step: Step)
    requires Enabled(s, step) && !IsEnvironment(step) && step.id in s.calls && !s.calls[step.id].stage.Reading?
    ensures var t := Do(s, step);
      step.id in t.calls && !t.calls[step.id].stage.Reading? && t.calls[step.id].read == s.calls[step.id].read
  {
  }

  lemma OldEventFromSpec(s: State, step: Step, e: Event)
    requires Enabled(s, step) && EventFromSpec(s, e)
    ensures EventFromSpec(Do(s, step), e)
  {
    if e.CheckPassed? {
      ReadIsStable(s, step, e.id, s.calls[e.id].read);
    } else if e.WroteProgrammed? {
      ReadIsStable(s, step, e.id, e.read);
    }
  }

  lemma NewEventFromSpec(s: State, step: Step)
    requires Enabled(s, step) && |Do(s, step).log| == |s.log| + 1
    requires step.Program? ==> s.calls[step.id].read < |s.revisions|
    ensures EventFromSpec(Do(s, step), Do(s, step).log[|s.log|])
  {
  }

  lemma StepKeepsKeys(s: State, step: Step)
    requires Origin(s) && Enabled(s, step)
    ensures forall v :: 0 <= v < |Do(s, step).revisions| ==> Do(s, step).revisions[v].key == s.revisions[0].key
  {
    assert s.revisions[|s.revisions| - 1].key == s.revisions[0].key;
  }

  lemma StepKeepsOrigin(s: State, step: Step)
    requires Origin(s) && Inv(s) && Enabled(s, step)
    ensures Origin(Do(s, step))
  {
    DoGrows(s, step);
    StepKeepsKeys(s, step);
    var t := Do(s, step);
    forall i | 0 <= i < |t.log| ensures EventFromSpec(t, t.log[i]) {
      if i < |s.log| {
        OldEventFromSpec(s, step, s.log[i]);
      } else {
        assert step.Program? ==> CallOk(s.log, s.revisions, step.id, s.calls[step.id]);
        NewEventFromSpec(s, step);
      }
    }
  }

  lemma {:induction false} RunKeepsOrigin(states: seq<State>, steps: seq<Step>, n: nat)
    requires IsRun(states, steps) && n < |states|
    ensures Origin(states[n])
  {
    if n > 0 {
      RunKeepsOrigin(states, steps, n - 1);
      RunKeepsInv(states, steps, n - 1);
      StepKeepsOrigin(states[n - 1], steps[n - 1]);
      assert states[n] == Do(states[n - 1], steps[n - 1]);
    }
  }

  /** Every check of `gw` is one that the spec `read` asks for too. */
  predicate CoveredBy(gw: Gateway, read: Gateway) {
    forall c :: c in Checks(gw) ==> c in Checks(read)
  }

  lemma CoveredIsChecked(log: seq<Event>, id: nat, gw: Gateway, read: Gateway)
    requires CheckedUpTo(log, id, read, |Checks(read)|) && CoveredBy(gw, read) && gw.key == read.key
    ensures CheckedUpTo(log, id, gw, |Checks(gw)|)
  {
    forall k | 0 <= k < |Checks(gw)| ensures Passed(log, id, gw.key.namespace, Checks(gw)[k]) {
      assert Checks(gw)[k] in Checks(read);
      var m :| 0 <= m < |Checks(read)| && Checks(read)[m] == Checks(gw)[k];
      assert Passed(log, id, read.key.namespace, Checks(read)[m]);
    }
  }

  lemma CheckedIsCovered(s: State, j: nat, gw: Gateway)
    requires Origin(s) && j < |s.log| && s.log[j].WroteProgrammed?
    requires CheckedUpTo(s.log[..j], s.log[j].id, gw, |Checks(gw)|)
    ensures s.log[j].read < |s.revisions| && CoveredBy(gw, s.revisions[s.log[j].read])
  {
    var e := s.log[j];
    assert EventFromSpec(s, e);
    forall c | c in Checks(gw) ensures c in Checks(s.revisions[e.read]) {
      var k :| 0 <= k < |Checks(gw)| && Checks(gw)[k] == c;
      assert Passed(s.log[..j], e.id, gw.key.namespace, c);
      var i :| 0 <= i < j && Passes(s.log[..j][i], e.id, gw.key.namespace, c);
      assert EventFromSpec(s, s.log[i]);
    }
  }

  /** Exactly when a claim is a checked one. For every write of Programmed in every run and
      every spec that the Gateway has had, before or since: the writing call had checked all
      the certificates that the spec requires if and only if the spec the call read
      required them all. */
  lemma ClaimIsCheckedIff(states: seq<State>, steps: seq<Step>, n: nat, j: nat, v: nat)
    requires IsRun(states, steps) && n < |states| && v < |states[n].revisions|
    requires j < |states[n].log| && states[n].log[j].WroteProgrammed?
    ensures var s, e := states[n], states[n].log[j];
      && e.read < |s.revisions|
      && (CheckedUpTo(s.log[..j], e.id, s.revisions[v], |Checks(s.revisions[v])|) <==>
            CoveredBy(s.revisions[v], s.revisions[e.read]))
  {
    RunKeepsInv(states, steps, n);
    RunKeepsOrigin(states, steps, n);
    var s, e := states[n], states[n].log[j];
    assert Justified(s.log, s.revisions, j);
    var gw := s.revisions[v];
    if CoveredBy(gw, s.revisions[e.read]) {
      assert gw.key == s.revisions[0].key && s.revisions[e.read].key == s.revisions[0].key;
      CoveredIsChecked(s.log[..j], e.id, gw, s.revisions[e.read]);
    }
    if CheckedUpTo(s.log[..j], e.id, gw, |Checks(gw)|) {
      CheckedIsCovered(s, j, gw);
    }
  }

  // ----- the same on references: a renamed listener keeps its certificate -----

  /** Some listener or the backend client certificate of the spec asks for the reference. */
  ghost predicate Asks(gw: Gateway, ref: SecretRef) {
    exists c :: c in Checks(gw) && !c.NoRefs? && c.ref == ref
  }

  predicate PassesRef(e: Event, id: nat, namespace: string, ref: SecretRef) {
    && e.CheckPassed? && e.id == id && !e.check.NoRefs? && e.check.ref == ref
    && RefProblem(e.lookups, namespace, ref) == None
  }

  /** The call found the reference permitted and its Secret complete. */
  ghost predicate RefPassed(log: seq<Event>, id: nat, namespace: string, ref: SecretRef) {
    exists i :: 0 <= i < |log| && PassesRef(log[i], id, namespace, ref)
  }

  ghost predicate RefsChecked(log: seq<Event>, id: nat, gw: Gateway) {
    forall ref :: Asks(gw, ref) ==> RefPassed(log, id, gw.key.namespace, ref)
  }

  ghost predicate RefsCoveredBy(gw: Gateway, read: Gateway) {
    forall ref :: Asks(gw, ref) ==> Asks(read, ref)
  }

  lemma AskedIsPassed(log: seq<Event>, id: nat, read: Gateway, ref: SecretRef)
    requires CheckedUpTo(log, id, read, |Checks(read)|) && Asks(read, ref)
    ensures RefPassed(log, id, read.key.namespace, ref)
  {
    var c :| c in Checks(read) && !c.NoRefs? && c.ref == ref;
    var k :| 0 <= k < |Checks(read)| && Checks(read)[k] == c;
    assert Passed(log, id, read.key.namespace, c);
    var i :| 0 <= i < |log| && Passes(log[i], id, read.key.namespace, c);
    assert PassesRef(log[i], id, read.key.namespace, ref);
  }

  lemma PassedIsAsked(s: State, j: nat, namespace: string, ref: SecretRef)
    requires Origin(s) && j < |s.log| && s.log[j].WroteProgrammed?
    requires RefPassed(s.log[..j], s.log[j].id, namespace, ref)
    ensures s.log[j].read < |s.revisions| && Asks(s.revisions[s.log[j].read], ref)
  {
    var e := s.log[j];
    assert EventFromSpec(s, e);
    var i :| 0 <= i < j && PassesRef(s.log[..j][i], e.id, namespace, ref);
    assert EventFromSpec(s, s.log[i]);
  }

  /** For every write of Programmed and every spec that the Gateway has had: the writing call
      had found all the references of that spec good if and only if the spec the call read
      asks for them all, under whatever listener names. */
  lemma RefsAreCheckedIff(states: seq<State>, steps: seq<Step>, n: nat, j: nat, v: nat)
    requires IsRun(states, steps) && n < |states| && v < |states[n].revisions|
    requires j < |states[n].log| && states[n].log[j].WroteProgrammed?
    ensures var s, e := states[n], states[n].log[j];
      && e.read < |s.revisions|
      && (RefsChecked(s.log[..j], e.id, s.revisions[v]) <==> RefsCoveredBy(s.revisions[v], s.revisions[e.read]))
  {
    RunKeepsInv(states, steps, n);
    RunKeepsOrigin(states, steps, n);
    var s, e := states[n], states[n].log[j];
    assert Justified(s.log, s.revisions, j);
    var gw, read := s.revisions[v], s.revisions[e.read];
    assert gw.key == s.revisions[0].key && read.key == s.revisions[0].key;
    forall ref ensures RefPassed(s.log[..j], e.id, gw.key.namespace, ref) <==> Asks(read, ref) {
      if Asks(read, ref) {
        AskedIsPassed(s.log[..j], e.id, read, ref);
      }
      if RefPassed(s.log[..j], e.id, gw.key.namespace, ref) {
        PassedIsAsked(s, j, gw.key.namespace, ref);
      }
    }
  }

  /** So a claim is good when the revision did not change between the call's read and its
      write: every certificate of the spec it claims was checked by that call. */
  lemma FixedRevisionIsChecked(states: seq<State>, steps: seq<Step>, n: nat, j: nat)
    requires IsRun(states, steps) && n < |states|
    requires j < |states[n].log| && states[n].log[j].WroteProgrammed?
    requires states[n].log[j].read == states[n].log[j].revision
    ensures var s, e := states[n], states[n].log[j];
      e.revision < |s.revisions| &&
      CheckedUpTo(s.log[..j], e.id, s.revisions[e.revision], |Checks(s.revisions[e.revision])|)
  {
    RunKeepsInv(states, steps, n);
    assert Justified(states[n].log, states[n].revisions, j);
    ClaimIsCheckedIff(states, steps, n, j, states[n].log[j].revision);
  }

  // ----- the hypothesis is needed -----

  lemma Extend(states: seq<State>, steps: seq<Step>, step: Step) returns (states': seq<State>, steps': seq<Step>)
    requires IsRun(states, steps) && Enabled(states[|states| - 1], step)
    ensures IsRun(states', steps') && |states'| == |states| + 1
    ensures states'[|states'| - 1] == Do(states[|states| - 1], step)
  {
    states' := states + [Do(states[|states| - 1], step)];
    steps' := steps + [step];
    forall i | 0 <= i < |steps'| ensures Enabled(states'[i], steps'[i]) && states'[i + 1] == Do(states'[i], steps'[i]) {
      if i < |steps| { assert steps'[i] == steps[i]; }
    }
  }

  const PLAIN := Listener("web", None, 80, HTTP_PROTOCOL, None, None)
  const CERT := SecretRef(None, None, None, "cert")
  const SECURE := Listener("web", None, 443, HTTPS_PROTOCOL, Some(ListenerTls(None, [CERT])), None)

  lemma PlainNeedsNone(gw: Gateway)
    requires gw.listeners == [PLAIN] && gw.clientCert == None
    ensures Checks(gw) == []
  {
    assert |HTTP_PROTOCOL| == 4 && |HTTPS_PROTOCOL| == 5 && |TLS_PROTOCOL| == 3;
    assert RequiredRefs(PLAIN) == None;
    assert gw.listeners[1..] == [];
    assert ListenersChecks(gw.listeners[1..]) == [];
  }

  /** One call over the plain-HTTP Gateway, up to its acceptance. */
  lemma PlainAccepted(gw: Gateway) returns (states: seq<State>, steps: seq<Step>)
    requires gw.status == EMPTY_STATUS
    ensures IsRun(states, steps)
    ensures var s := states[|states| - 1];
      && s.revisions == [gw] && s.live && s.calls == map[0 := Call(Validating(0), 0)]
      && forall e :: e in s.log ==> !e.CheckPassed?
  {
    var s0 := State([gw], true, EMPTY_STATUS, map[], []);
    states, steps := [s0], [];
    states, steps := Extend(states, steps, Begin(0));
    states, steps := Extend(states, steps, ReadFound(0, 0));
    var lookups := World(map[], map[], map[gw.className := Found(CONTROLLER_NAME)]);
    states, steps := Extend(states, steps, Classify(0, lookups));
    states, steps := Extend(states, steps, Accept(0, 0));
  }

  /** The same call, up to the point where it has its addresses. */
  lemma PlainCall(gw: Gateway, address: Address) returns (states: seq<State>, steps: seq<Step>)
    requires gw.listeners == [PLAIN] && gw.clientCert == None && gw.status == EMPTY_STATUS
    ensures IsRun(states, steps)
    ensures var s := states[|states| - 1];
      && s.revisions == [gw] && s.live && s.calls == map[0 := Call(Rereading([address]), 0)]
      && forall e :: e in s.log ==> !e.CheckPassed?
  {
    PlainNeedsNone(gw);
    states, steps := PlainAccepted(gw);
    states, steps := Extend(states, steps, FinishChecks(0));
    states, steps := PlainProvision(states, steps, gw, address);
  }

  lemma PlainProvision(states: seq<State>, steps: seq<Step>, gw: Gateway, address: Address)
    returns (states': seq<State>, steps': seq<Step>)
    requires IsRun(states, steps)
    requires var s := states[|states| - 1];
      && s.revisions == [gw] && s.live && s.calls == map[0 := Call(Provisioning(0), 0)]
      && forall e :: e in s.log ==> !e.CheckPassed?
    ensures IsRun(states', steps')
    ensures var s := states'[|states'| - 1];
      && s.revisions == [gw] && s.live && s.calls == map[0 := Call(Rereading([address]), 0)]
      && forall e :: e in s.log ==> !e.CheckPassed?
  {
    states', steps' := Extend(states, steps, ApplyNext(0));
    states', steps' := Extend(states', steps', ApplyNext(0));
    states', steps' := Extend(states', steps', ApplyNext(0));
    states', steps' := Extend(states', steps', ApplyNext(0));
    states', steps' := Extend(states', steps', RefreshDone(0));
    states', steps' := Extend(states', steps', SeeReplica(0));
    states', steps' := Extend(states', steps', SeeAddresses(0, [address]));
  }

  /** Without the fixed revision the claim can be wrong: the spec gains an HTTPS listener
      after the call's checks, `MarkProgrammed` stamps the generation it re-reads, and the
      stored status claims Programmed for a certificate that no call ever checked. */
  lemma EditDuringCallIsClaimed(gw: Gateway, address: Address) returns (states: seq<State>, steps: seq<Step>)
    requires gw.listeners == [PLAIN] && gw.clientCert == None && gw.status == EMPTY_STATUS
    ensures IsRun(states, steps)
    ensures var s := states[|states| - 1];
      && s.revisions != [] && s.live && Claims(s.status, Newest(s).generation)
      && ListenerCert("web", CERT) in Checks(Newest(s))
      && forall e :: e in s.log ==> !e.CheckPassed?
  {
    states, steps := PlainCall(gw, address);
    states, steps := Extend(states, steps, Edit(gw.className, [SECURE], None, false));
    states, steps := Extend(states, steps, Reread(0, true));
    var before := states[|states| - 1];
    assert before.calls[0] == Call(Programming([address]), 0);
    states, steps := Extend(states, steps, Program(0, 0));
    var s := states[|states| - 1];
    var c := GatewayProgrammed(Newest(before).generation, 0);
    UpsertSettles(before.status.conditions, c, c);
    assert ProgrammedAt(s.status.conditions, Newest(s).generation);
    assert Newest(s).listeners == [SECURE];
    SecureNeedsCert(Newest(s));
  }

  lemma SecureNeedsCert(gw: Gateway)
    requires gw.listeners == [SECURE]
    ensures ListenerCert("web", CERT) in Checks(gw)
  {
    assert RequiredRefs(SECURE) == Some([CERT]);
    assert RefChecks("web", [CERT])[0] == ListenerCert("web", CERT);
    assert ListenerChecks(SECURE)[0] == ListenerCert("web", CERT);
    assert ListenersChecks(gw.listeners)[0] == ListenerCert("web", CERT);
    assert Checks(gw)[0] == ListenerCert("web", CERT);
  }
}
