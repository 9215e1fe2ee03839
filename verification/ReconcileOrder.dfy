/** The order of work inside a `Reconcile` call, over every run: what a call must have done
    and found before each thing it does. */
module ReconcileOrder {
  import opened GatewayApi
  import opened TlsAssets
  import opened ReconcileRuns

  predicate ClassifiedAs(e: Event, id: nat, gw: Gateway, ours: bool) {
    e.Classified? && e.id == id && IsOurs(e.lookups, gw) == Some(ours)
  }

  /** The call found the class of the spec it read to be ours, or not to be. */
  predicate ClassFound(log: seq<Event>, id: nat, gw: Gateway, ours: bool) {
    exists i :: 0 <= i < |log| && ClassifiedAs(log[i], id, gw, ours)
  }

  predicate HasAddresses(log: seq<Event>, id: nat) {
    exists i :: 0 <= i < |log| && log[i].SawAddresses? && log[i].id == id && log[i].addresses != []
  }

  predicate AppliedFirst(log: seq<Event>, id: nat, n: nat) {
    forall k: nat :: k < n ==> AppliedObject(id, k) in log
  }

  /** What has to have happened, one thing after the other, before a call is through:
      the Gateway read, its class found to be ours, `MarkAccepted` done, every required
      certificate found good, the ServiceAccount, the token Secret, the Deployment and the
      Service applied, Istiod refreshed, a replica seen, an address seen and the Gateway found
      to be there still. */
  predicate Fact(log: seq<Event>, id: nat, gw: Gateway, read: nat, k: nat) {
    if k == 1 then SawGateway(id, read) in log
    else if k == 2 then ClassFound(log, id, gw, true)
    else if k == 3 then AcceptDone(id) in log
    else if k == 4 then CheckedUpTo(log, id, gw, |Checks(gw)|)
    else if k == 5 then AppliedFirst(log, id, 4)
    else if k == 6 then IstiodRefreshed(id) in log
    else if k == 7 then SawReplica(id) in log
    else if k == 8 then HasAddresses(log, id)
    else if k == 9 then SawAgain(id) in log
    else true
  }

  predicate Established(log: seq<Event>, id: nat, gw: Gateway, read: nat, rank: nat) {
    forall k: nat :: 1 <= k <= rank ==> Fact(log, id, gw, read, k)
  }

  function Rank(stage: Stage): nat {
    match stage
    case Reading => 0
    case Classifying => 1
    case Accepting => 2
    case Validating(_) => 3
    case Refusing(_, _) => 3
    case Provisioning(_) => 4
    case RefreshingIstiod => 5
    case AwaitingReplica => 6
    case AwaitingAddress => 7
    case Rereading(_) => 8
    case Programming(_) => 9
    case MarkingRoutes => 9
    case CleaningUp => 0
    case Finished(_) => 0
  }

  predicate FailsCheck(e: Event, id: nat, namespace: string, check: Check, reason: string) {
    e.CheckFailed? && e.id == id && e.check == check && Problem(e.lookups, namespace, check) == Some(reason)
  }

  /** The check is one of the spec's, all before it passed, and it failed for this reason. */
  predicate RefusedAt(log: seq<Event>, id: nat, gw: Gateway, check: Check, reason: string) {
    && (exists p :: 0 <= p < |Checks(gw)| && Checks(gw)[p] == check && CheckedUpTo(log, id, gw, p))
    && exists i :: 0 <= i < |log| && FailsCheck(log[i], id, gw.key.namespace, check, reason)
  }

  /** Cleaning up is due: the Gateway was missing, or its class was found not to be ours. */
  predicate CleanupDue(log: seq<Event>, revisions: seq<Gateway>, id: nat, read: nat) {
    SawMissing(id) in log || (read < |revisions| && ClassFound(log, id, revisions[read], false))
  }

  ghost predicate StageOk(log: seq<Event>, id: nat, gw: Gateway, stage: Stage) {
    match stage
    case Validating(p) => CheckedUpTo(log, id, gw, p)
    case Refusing(check, reason) => RefusedAt(log, id, gw, check, reason)
    case Provisioning(n) => n <= 3 && AppliedFirst(log, id, n)
    case _ => true
  }

  ghost predicate CallInOrder(log: seq<Event>, revisions: seq<Gateway>, id: nat, c: Call) {
    && (Rank(c.stage) > 0 ==>
          && c.read < |revisions| && StageOk(log, id, revisions[c.read], c.stage)
          && Established(log, id, revisions[c.read], c.read, Rank(c.stage)))
    && (c.stage.CleaningUp? ==> CleanupDue(log, revisions, id, c.read))
    && (c.stage == Finished(true) ==>
          CleanedUpAll(id) in log || (c.read < |revisions| && Established(log, id, revisions[c.read], c.read, 8)))
    && (c.stage == Finished(false) ==> CallFailed(id) in log || SomeCheckFailed(log, id))
  }

  /** The call made a check that did not pass. */
  predicate SomeCheckFailed(log: seq<Event>, id: nat) {
    exists i :: 0 <= i < |log| && log[i].CheckFailed? && log[i].id == id
  }

  /** How much must have been established before the event. */
  function Needs(e: Event): nat {
    match e
    case AcceptDone(_) => 2
    case CheckPassed(_, _, _) => 3
    case CheckFailed(_, _, _) => 3
    case RefusedListener(_, _, _, _) => 3
    case AppliedObject(_, _) => 4
    case IstiodRefreshed(_) => 5
    case SawReplica(_) => 6
    case SawAddresses(_, _) => 7
    case SawAgain(_) => 8
    case WroteProgrammed(_, _, _, _) => 9
    case _ => 0
  }

  ghost predicate ReadAndEstablished(log: seq<Event>, revisions: seq<Gateway>, id: nat, read: nat, rank: nat) {
    read < |revisions| && Established(log, id, revisions[read], read, rank)
  }

  /** The event comes after everything it needs, all by the same call and for the spec which
      that call read. */
  ghost predicate InOrder(log: seq<Event>, revisions: seq<Gateway>, e: Event) {
    && (Needs(e) > 0 ==> exists read :: ReadAndEstablished(log, revisions, e.id, read, Needs(e)))
    && (e.WroteProgrammed? ==> ReadAndEstablished(log, revisions, e.id, e.read, 9))
    && (e.RefusedListener? ==>
          && ReadAndEstablished(log, revisions, e.id, e.read, 3) && !e.check.ClientCert?
          && RefusedAt(log, e.id, revisions[e.read], e.check, e.reason))
    && (e.AppliedObject? ==> e.which < 4 && AppliedFirst(log, e.id, e.which))
    && (e.CleanedUpAll? ==> exists read :: CleanupDue(log, revisions, e.id, read))
  }

  ghost predicate OrderInv(s: State) {
    && (forall id :: id in s.calls ==> CallInOrder(s.log, s.revisions, id, s.calls[id]))
    && (forall j :: 0 <= j < |s.log| ==> InOrder(s.log[..j], s.revisions, s.log[j]))
  }

  // ----- facts stay -----

  lemma ClassFoundGrows(a: seq<Event>, b: seq<Event>, id: nat, gw: Gateway, ours: bool)
    requires a <= b && ClassFound(a, id, gw, ours)
    ensures ClassFound(b, id, gw, ours)
  {
    var i :| 0 <= i < |a| && ClassifiedAs(a[i], id, gw, ours);
    assert b[i] == a[i];
  }

  lemma FactGrows(a: seq<Event>, b: seq<Event>, id: nat, gw: Gateway, read: nat, k: nat)
    requires a <= b && Fact(a, id, gw, read, k)
    ensures Fact(b, id, gw, read, k)
  {
    assert forall e :: e in a ==> e in b;
    if k == 2 {
      ClassFoundGrows(a, b, id, gw, true);
    } else if k == 4 {
      CheckedGrows(a, b, id, gw, |Checks(gw)|);
    } else if k == 8 {
      var i :| 0 <= i < |a| && a[i].SawAddresses? && a[i].id == id && a[i].addresses != [];
      assert b[i] == a[i];
    }
  }

  lemma EstablishedGrows(a: seq<Event>, b: seq<Event>, id: nat, gw: Gateway, read: nat, rank: nat)
    requires a <= b && Established(a, id, gw, read, rank)
    ensures Established(b, id, gw, read, rank)
  {
    forall k: nat | 1 <= k <= rank ensures Fact(b, id, gw, read, k) {
      FactGrows(a, b, id, gw, read, k);
    }
  }

  lemma EstablishedOneMore(log: seq<Event>, e: Event, id: nat, gw: Gateway, read: nat, rank: nat)
    requires Established(log, id, gw, read, rank) && Fact(log + [e], id, gw, read, rank + 1)
    ensures Established(log + [e], id, gw, read, rank + 1)
  {
    EstablishedGrows(log, log + [e], id, gw, read, rank);
  }

  lemma RefusedAtGrows(a: seq<Event>, b: seq<Event>, id: nat, gw: Gateway, check: Check, reason: string)
    requires a <= b && RefusedAt(a, id, gw, check, reason)
    ensures RefusedAt(b, id, gw, check, reason)
  {
    var p :| 0 <= p < |Checks(gw)| && Checks(gw)[p] == check && CheckedUpTo(a, id, gw, p);
    CheckedGrows(a, b, id, gw, p);
    var i :| 0 <= i < |a| && FailsCheck(a[i], id, gw.key.namespace, check, reason);
    assert b[i] == a[i];
  }

  lemma StageOkGrows(a: seq<Event>, b: seq<Event>, id: nat, gw: Gateway, stage: Stage)
    requires a <= b && StageOk(a, id, gw, stage)
    ensures StageOk(b, id, gw, stage)
  {
    assert forall e :: e in a ==> e in b;
    if stage.Validating? {
      CheckedGrows(a, b, id, gw, stage.passed);
    } else if stage.Refusing? {
      RefusedAtGrows(a, b, id, gw, stage.check, stage.reason);
    }
  }

  lemma CleanupDueGrows(a: seq<Event>, b: seq<Event>, revisions: seq<Gateway>, revisions': seq<Gateway>, id: nat,
                        read: nat)
    requires a <= b && revisions <= revisions' && CleanupDue(a, revisions, id, read)
    ensures CleanupDue(b, revisions', id, read)
  {
    assert forall e :: e in a ==> e in b;
    if SawMissing(id) !in a {
      ClassFoundGrows(a, b, id, revisions[read], false);
    }
  }

  lemma CallInOrderGrows(a: seq<Event>, b: seq<Event>, revisions: seq<Gateway>, revisions': seq<Gateway>, id: nat,
                         c: Call)
    requires a <= b && revisions <= revisions' && CallInOrder(a, revisions, id, c)
    ensures CallInOrder(b, revisions', id, c)
  {
    assert forall e :: e in a ==> e in b;
    if Rank(c.stage) > 0 {
      StageOkGrows(a, b, id, revisions[c.read], c.stage);
      EstablishedGrows(a, b, id, revisions[c.read], c.read, Rank(c.stage));
    }
    if c.stage.CleaningUp? {
      CleanupDueGrows(a, b, revisions, revisions', id, c.read);
    }
    if c.stage == Finished(true) && CleanedUpAll(id) !in a {
      EstablishedGrows(a, b, id, revisions[c.read], c.read, 8);
    }
    if c.stage == Finished(false) && CallFailed(id) !in a {
      SomeCheckFailedGrows(a, b, id);
    }
  }

  lemma SomeCheckFailedGrows(a: seq<Event>, b: seq<Event>, id: nat)
    requires a <= b && SomeCheckFailed(a, id)
    ensures SomeCheckFailed(b, id)
  {
    var i :| 0 <= i < |a| && a[i].CheckFailed? && a[i].id == id;
    assert b[i] == a[i];
  }

  lemma RefusedHasFailed(log: seq<Event>, id: nat, gw: Gateway, check: Check, reason: string)
    requires RefusedAt(log, id, gw, check, reason)
    ensures SomeCheckFailed(log, id)
  {
    var i :| 0 <= i < |log| && FailsCheck(log[i], id, gw.key.namespace, check, reason);
    assert log[i].CheckFailed? && log[i].id == id;
  }

  lemma InOrderGrows(log: seq<Event>, revisions: seq<Gateway>, revisions': seq<Gateway>, e: Event)
    requires revisions <= revisions' && InOrder(log, revisions, e)
    ensures InOrder(log, revisions', e)
  {
    if Needs(e) > 0 {
      var read :| ReadAndEstablished(log, revisions, e.id, read, Needs(e));
      assert ReadAndEstablished(log, revisions', e.id, read, Needs(e));
    }
    if e.CleanedUpAll? {
      var read :| CleanupDue(log, revisions, e.id, read);
      CleanupDueGrows(log, log, revisions, revisions', e.id, read);
    }
  }

  // ----- one step -----

  lemma OwnRead(s: State, step: Step)
    requires Enabled(s, step) && (step.Begin? || step.ReadFound? || step.ReadMissing?)
    ensures CallInOrder(Do(s, step).log, Do(s, step).revisions, step.id, Do(s, step).calls[step.id])
  {
    var t := Do(s, step);
    if !step.Begin? {
      assert t.log[|s.log|] in t.log;
    }
  }

  lemma OwnClassify(s: State, step: Step)
    requires Enabled(s, step) && step.Classify? && CallInOrder(s.log, s.revisions, step.id, s.calls[step.id])
    ensures CallInOrder(Do(s, step).log, Do(s, step).revisions, step.id, Do(s, step).calls[step.id])
  {
    var gw, e := Spec(s, step.id), Classified(step.id, step.lookups);
    var log := s.log + [e];
    assert Do(s, step).log == log && log[|s.log|] == e;
    assert ClassifiedAs(log[|s.log|], step.id, gw, IsOurs(step.lookups, gw).value);
    if IsOurs(step.lookups, gw) == Some(true) {
      EstablishedOneMore(s.log, e, step.id, gw, s.calls[step.id].read, 1);
    }
  }

  lemma OwnAccept(s: State, step: Step)
    requires Enabled(s, step) && (step.Accept? || step.SkipAccept?)
    requires CallInOrder(s.log, s.revisions, step.id, s.calls[step.id])
    ensures CallInOrder(Do(s, step).log, Do(s, step).revisions, step.id, Do(s, step).calls[step.id])
  {
    var e := AcceptDone(step.id);
    assert Do(s, step).log == s.log + [e] && (s.log + [e])[|s.log|] == e;
    EstablishedOneMore(s.log, e, step.id, Spec(s, step.id), s.calls[step.id].read, 2);
  }

  lemma OwnCheckPassed(s: State, step: Step)
    requires Enabled(s, step) && step.PassCheck? && CallInOrder(s.log, s.revisions, step.id, s.calls[step.id])
    ensures CallInOrder(Do(s, step).log, Do(s, step).revisions, step.id, Do(s, step).calls[step.id])
  {
    var gw, p := Spec(s, step.id), s.calls[step.id].stage.passed;
    var e := CheckPassed(step.id, NextCheck(s, step.id), step.lookups);
    assert Do(s, step).log == s.log + [e];
    CheckedOneMore(s.log, e, step.id, gw, p);
    EstablishedGrows(s.log, s.log + [e], step.id, gw, s.calls[step.id].read, 3);
  }

  lemma OwnCheckFailed(s: State, step: Step)
    requires Enabled(s, step) && step.FailCheck? && CallInOrder(s.log, s.revisions, step.id, s.calls[step.id])
    ensures CallInOrder(Do(s, step).log, Do(s, step).revisions, step.id, Do(s, step).calls[step.id])
  {
    var gw, p := Spec(s, step.id), s.calls[step.id].stage.passed;
    var e := CheckFailed(step.id, NextCheck(s, step.id), step.lookups);
    var log := s.log + [e];
    assert Do(s, step).log == log && log[|s.log|] == e;
    CheckedGrows(s.log, log, step.id, gw, p);
    assert FailsCheck(log[|s.log|], step.id, gw.key.namespace, e.check, Finding(s, step.id, step.lookups).value);
    assert RefusedAt(log, step.id, gw, e.check, Finding(s, step.id, step.lookups).value);
    EstablishedGrows(s.log, log, step.id, gw, s.calls[step.id].read, 3);
  }

  lemma OwnFinishChecks(s: State, step: Step)
    requires Enabled(s, step) && step.FinishChecks? && CallInOrder(s.log, s.revisions, step.id, s.calls[step.id])
    ensures CallInOrder(Do(s, step).log, Do(s, step).revisions, step.id, Do(s, step).calls[step.id])
  {
    var gw, read := Spec(s, step.id), s.calls[step.id].read;
    forall k: nat | 1 <= k <= 4 ensures Fact(s.log, step.id, gw, read, k) {
    }
  }

  lemma OwnApply(s: State, step: Step)
    requires Enabled(s, step) && step.ApplyNext? && CallInOrder(s.log, s.revisions, step.id, s.calls[step.id])
    ensures CallInOrder(Do(s, step).log, Do(s, step).revisions, step.id, Do(s, step).calls[step.id])
  {
    var c, n := s.calls[step.id], s.calls[step.id].stage.applied;
    var gw, e := s.revisions[c.read], AppliedObject(step.id, n);
    var log := s.log + [e];
    assert Do(s, step).log == log && log[|s.log|] == e;
    assert forall x :: x in s.log ==> x in log;
    assert AppliedFirst(log, step.id, n + 1);
    EstablishedGrows(s.log, log, step.id, gw, c.read, 4);
    if n == 3 {
      EstablishedOneMore(s.log, e, step.id, gw, c.read, 4);
    }
  }

  lemma OwnSighting(s: State, step: Step)
    requires Enabled(s, step) && (step.RefreshDone? || step.SeeReplica? || step.SeeAddresses?)
    requires CallInOrder(s.log, s.revisions, step.id, s.calls[step.id])
    ensures CallInOrder(Do(s, step).log, Do(s, step).revisions, step.id, Do(s, step).calls[step.id])
  {
    var c, log := s.calls[step.id], Do(s, step).log;
    var e := log[|s.log|];
    assert log == s.log + [e] && log[|s.log|] == e;
    EstablishedOneMore(s.log, e, step.id, s.revisions[c.read], c.read, Rank(c.stage));
  }

  lemma OwnClosing(s: State, step: Step)
    requires Enabled(s, step) && (step.Refuse? || step.CleanedUp? || step.Fail?)
    requires CallInOrder(s.log, s.revisions, step.id, s.calls[step.id])
    ensures CallInOrder(Do(s, step).log, Do(s, step).revisions, step.id, Do(s, step).calls[step.id])
  {
    var t, c := Do(s, step), s.calls[step.id];
    assert t.log[|s.log|] in t.log;
    if step.Refuse? {
      RefusedHasFailed(s.log, step.id, s.revisions[c.read], c.stage.check, c.stage.reason);
      SomeCheckFailedGrows(s.log, t.log, step.id);
    }
  }

  lemma OwnReread(s: State, step: Step)
    requires Enabled(s, step) && step.Reread? && CallInOrder(s.log, s.revisions, step.id, s.calls[step.id])
    ensures CallInOrder(Do(s, step).log, Do(s, step).revisions, step.id, Do(s, step).calls[step.id])
  {
    var c := s.calls[step.id];
    if step.found {
      var e := SawAgain(step.id);
      assert Do(s, step).log == s.log + [e] && (s.log + [e])[|s.log|] == e;
      EstablishedOneMore(s.log, e, step.id, s.revisions[c.read], c.read, 8);
    }
  }

  /** After that there is nothing more to establish. */
  lemma OwnLate(s: State, step: Step)
    requires Enabled(s, step) && (step.Program? || step.SkipProgram? || step.RoutesMarked?)
    requires CallInOrder(s.log, s.revisions, step.id, s.calls[step.id])
    ensures CallInOrder(Do(s, step).log, Do(s, step).revisions, step.id, Do(s, step).calls[step.id])
  {
    LateShape(s, step);
    LateKeeps(s.log, Do(s, step).log, s.revisions, step.id, s.calls[step.id], Do(s, step).calls[step.id]);
  }

  lemma LateShape(s: State, step: Step)
    requires Enabled(s, step) && (step.Program? || step.SkipProgram? || step.RoutesMarked?)
    ensures var c, t := s.calls[step.id], Do(s, step);
      && Rank(c.stage) == 9 && s.log <= t.log && t.revisions == s.revisions && step.id in t.calls
      && t.calls[step.id] == c.(stage := if step.RoutesMarked? then Finished(true) else MarkingRoutes)
  {
  }

  lemma LateKeeps(log: seq<Event>, log': seq<Event>, revisions: seq<Gateway>, id: nat, c: Call, d: Call)
    requires CallInOrder(log, revisions, id, c) && Rank(c.stage) == 9 && log <= log'
    requires d == c.(stage := MarkingRoutes) || d == c.(stage := Finished(true))
    ensures CallInOrder(log', revisions, id, d)
  {
    EstablishedGrows(log, log', id, revisions[c.read], c.read, 9);
  }

  lemma OwnInOrder(s: State, step: Step)
    requires Enabled(s, step) && !IsEnvironment(step)
    requires step.id in s.calls ==> CallInOrder(s.log, s.revisions, step.id, s.calls[step.id])
    ensures step.id in Do(s, step).calls
    ensures CallInOrder(Do(s, step).log, Do(s, step).revisions, step.id, Do(s, step).calls[step.id])
  {
    if step.Begin? || step.ReadFound? || step.ReadMissing? {
      OwnRead(s, step);
    } else if step.Classify? {
      OwnClassify(s, step);
    } else if step.Accept? || step.SkipAccept? {
      OwnAccept(s, step);
    } else if step.PassCheck? {
      OwnCheckPassed(s, step);
    } else if step.FailCheck? {
      OwnCheckFailed(s, step);
    } else if step.FinishChecks? {
      OwnFinishChecks(s, step);
    } else if step.ApplyNext? {
      OwnApply(s, step);
    } else if step.RefreshDone? || step.SeeReplica? || step.SeeAddresses? {
      OwnSighting(s, step);
    } else if step.Refuse? || step.CleanedUp? || step.Fail? {
      OwnClosing(s, step);
    } else if step.Reread? {
      OwnReread(s, step);
    } else {
      OwnLate(s, step);
    }
  }

  lemma StepKeepsCalls(s: State, step: Step, id: nat)
    requires OrderInv(s) && Enabled(s, step) && id in Do(s, step).calls
    ensures CallInOrder(Do(s, step).log, Do(s, step).revisions, id, Do(s, step).calls[id])
  {
    if IsEnvironment(step) || step.id != id {
      OthersUntouched(s, step, id);
      DoGrows(s, step);
      CallInOrderGrows(s.log, Do(s, step).log, s.revisions, Do(s, step).revisions, id, s.calls[id]);
    } else {
      OwnInOrder(s, step);
    }
  }

  /** A new event is justified by the stage of the call that logs it. */
  lemma NewEventInOrder(s: State, step: Step)
    requires Enabled(s, step) && |Do(s, step).log| == |s.log| + 1 && !IsEnvironment(step) && step.id in s.calls
    requires CallInOrder(s.log, s.revisions, step.id, s.calls[step.id])
    ensures InOrder(s.log, s.revisions, Do(s, step).log[|s.log|])
  {
    var c, e := s.calls[step.id], Do(s, step).log[|s.log|];
    if Needs(e) > 0 {
      assert e.id == step.id && Needs(e) == Rank(c.stage);
      assert ReadAndEstablished(s.log, s.revisions, e.id, c.read, Needs(e));
    }
    if e.CleanedUpAll? {
      assert CleanupDue(s.log, s.revisions, e.id, c.read);
    }
  }

  lemma LogsByCalls(s: State, step: Step)
    requires Enabled(s, step) && |Do(s, step).log| > |s.log|
    ensures !IsEnvironment(step) && step.id in s.calls && |Do(s, step).log| == |s.log| + 1
  {
  }

  lemma StepKeepsEvents(s: State, step: Step, j: nat)
    requires OrderInv(s) && Enabled(s, step) && j < |Do(s, step).log|
    ensures InOrder(Do(s, step).log[..j], Do(s, step).revisions, Do(s, step).log[j])
  {
    DoGrows(s, step);
    var t := Do(s, step);
    if j < |s.log| {
      assert t.log[..j] == s.log[..j] && t.log[j] == s.log[j];
      InOrderGrows(s.log[..j], s.revisions, t.revisions, s.log[j]);
    } else {
      LogsByCalls(s, step);
      NewEventInOrder(s, step);
      assert t.log[..j] == s.log;
      InOrderGrows(s.log, s.revisions, t.revisions, t.log[j]);
    }
  }

  lemma {:induction false} RunKeepsOrder(states: seq<State>, steps: seq<Step>, n: nat)
    requires IsRun(states, steps) && n < |states|
    ensures OrderInv(states[n])
  {
    if n > 0 {
      RunKeepsOrder(states, steps, n - 1);
      var s, step := states[n - 1], steps[n - 1];
      assert Enabled(s, step) && states[n] == Do(s, step);
      OrderStep(s, step);
    }
  }

  lemma OrderStep(s: State, step: Step)
    requires OrderInv(s) && Enabled(s, step)
    ensures OrderInv(Do(s, step))
  {
    var t := Do(s, step);
    forall id | id in t.calls ensures CallInOrder(t.log, t.revisions, id, t.calls[id]) {
      StepKeepsCalls(s, step, id);
    }
    forall j | 0 <= j < |t.log| ensures InOrder(t.log[..j], t.revisions, t.log[j]) {
      StepKeepsEvents(s, step, j);
    }
  }

  // ----- over whole runs -----

  /** Whatever a call does, it does in order. In every run, before each event that a call
      logs, that same call has established everything the event needs, for the spec it read:
      it accepts, checks, provisions and claims only a Gateway whose class it found to be
      ours; it applies only after every certificate passed, one object after the other; it
      refuses a listener for the first check that failed and for the reason that was found;
      it claims Programmed last of all; and it cleans up only if the Gateway was missing or
      its class was found not to be ours. */
  lemma EverythingInOrder(states: seq<State>, steps: seq<Step>, n: nat, j: nat)
    requires IsRun(states, steps) && n < |states| && j < |states[n].log|
    ensures InOrder(states[n].log[..j], states[n].revisions, states[n].log[j])
  {
    RunKeepsOrder(states, steps, n);
  }

  /** Read off for each decision: an Accept step is for a Gateway found to be ours; a call in
      cleanup found it missing or not ours; a call that returned success has cleaned up or
      has been through everything up to the addresses, and one that returned an error has met
      one or has made a check that failed. */
  lemma DecisionsAreDue(states: seq<State>, steps: seq<Step>, n: nat, id: nat)
    requires IsRun(states, steps) && n < |states| && id in states[n].calls
    ensures var s, c := states[n], states[n].calls[id];
      && (n < |steps| && (steps[n].Accept? || steps[n].SkipAccept?) && steps[n].id == id ==>
            c.read < |s.revisions| && ClassFound(s.log, id, s.revisions[c.read], true))
      && (c.stage == CleaningUp ==> CleanupDue(s.log, s.revisions, id, c.read))
      && (c.stage == Finished(true) ==>
            CleanedUpAll(id) in s.log || ReadAndEstablished(s.log, s.revisions, id, c.read, 8))
      && (c.stage == Finished(false) ==> CallFailed(id) in s.log || SomeCheckFailed(s.log, id))
  {
    RunKeepsOrder(states, steps, n);
    var s, c := states[n], states[n].calls[id];
    assert CallInOrder(s.log, s.revisions, id, c);
    if n < |steps| && (steps[n].Accept? || steps[n].SkipAccept?) && steps[n].id == id {
      assert Enabled(s, steps[n]);
      assert Fact(s.log, id, s.revisions[c.read], c.read, 2);
    }
  }

  /** A class is ours exactly when it is found with this controller's name. */
  lemma IsOursMeans(w: World, gw: Gateway)
    ensures IsOurs(w, gw) == Some(true) <==>
      gw.className in w.classes &&
      w.classes[gw.className] == Found("gateway.azure.com/appnet-gateway.controller")
    ensures IsOurs(w, gw) == None <==> gw.className in w.classes && w.classes[gw.className].Failed?
  {
  }
}
