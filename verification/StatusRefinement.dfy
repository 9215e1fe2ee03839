/** The two models of a Gateway's status are one. A step of `ReconcileRuns` changes the stored
    Gateway as one commit of the optimistic store does, so a whole run leaves what the store
    leaves when the same writes commit one after the other. */
module StatusRefinement {
  import opened GatewayApi
  import opened GatewayStatuses
  import OptimisticStore
  import GatewayStore
  import opened ReconcileRuns

  type Cause = OptimisticStore.Cause<GatewayStore.Op, int, GatewayStore.Change>

  /** The commit that a step stands for, if it writes the Gateway. */
  function CauseOf(s: State, step: Step): Option<Cause>
    requires Enabled(s, step)
  {
    match step
    case Accept(id, now) => Some(OptimisticStore.ByWriter(id, GatewayStore.AcceptOp, now))
    case Refuse(id, message, now) =>
      var stage := s.calls[id].stage;
      var op := GatewayStore.ResolveRefsOp(stage.check.listener, ConditionFalse, stage.reason, message);
      Some(OptimisticStore.ByWriter(id, op, now))
    case Program(id, now) =>
      Some(OptimisticStore.ByWriter(id, GatewayStore.ProgramOp(s.calls[id].stage.addresses), now))
    case Edit(className, listeners, clientCert, deleting) =>
      Some(OptimisticStore.ByOther(GatewayStore.SpecEdit(className, listeners, clientCert, deleting)))
    case OtherStatus(c) => Some(OptimisticStore.ByOther(GatewayStore.OtherCondition(c)))
    case OtherListenerStatus(name, c) =>
      Some(OptimisticStore.ByOther(GatewayStore.OtherListenerCondition(name, c)))
    case _ => None
  }

  /** A step is a commit's effect on the newest version, by an actor to whom it is allowed,
      or it leaves the Gateway alone. Only re-creation starts a new object. */
  lemma StepIsCommit(s: State, step: Step)
    requires Enabled(s, step) && !step.Recreate?
    ensures Do(s, step).revisions != []
    ensures match CauseOf(s, step)
      case None => Newest(Do(s, step)) == Newest(s)
      case Some(c) =>
        && Newest(Do(s, step)) == OptimisticStore.Apply(GatewayStore.RULES, Newest(s), c)
        && (c.ByOther? ==> GatewayStore.Legal(c.change))
  {
  }

  ghost predicate Chain(states: seq<State>, steps: seq<Step>) {
    |states| == |steps| + 1 &&
    forall i {:trigger steps[i]} :: 0 <= i < |steps| ==>
      Enabled(states[i], steps[i]) && states[i + 1] == Do(states[i], steps[i])
  }

  /** The commits among `cs[a..n]`, in order. */
  function CommitsIn(cs: seq<Option<Cause>>, a: nat, n: nat): seq<Cause>
    requires a <= n <= |cs|
    decreases n
  {
    if a == n then [] else CommitsIn(cs, a, n - 1) + if cs[n - 1].Some? then [cs[n - 1].value] else []
  }

  ghost function StepCauses(states: seq<State>, steps: seq<Step>): seq<Option<Cause>>
    requires Chain(states, steps)
  {
    seq(|steps|, i requires 0 <= i < |steps| && Enabled(states[i], steps[i]) => CauseOf(states[i], steps[i]))
  }

  lemma ReplayAppend(x: Gateway, causes: seq<Cause>, c: Cause)
    ensures OptimisticStore.Replay(GatewayStore.RULES, x, causes + [c]) ==
            OptimisticStore.Apply(GatewayStore.RULES, OptimisticStore.Replay(GatewayStore.RULES, x, causes), c)
  {
    assert (causes + [c])[..|causes|] == causes;
  }

  /** `y` is `x` after the commit, or `x` itself if there is none. */
  predicate Leads(x: Gateway, c: Option<Cause>, y: Gateway) {
    y == if c.Some? then OptimisticStore.Apply(GatewayStore.RULES, x, c.value) else x
  }

  lemma {:induction false} LeadsToReplay(gs: seq<Gateway>, cs: seq<Option<Cause>>, a: nat, n: nat)
    requires |gs| == |cs| + 1 && a <= n < |gs|
    requires forall i {:trigger cs[i]} :: a <= i < n ==> Leads(gs[i], cs[i], gs[i + 1])
    ensures gs[n] == OptimisticStore.Replay(GatewayStore.RULES, gs[a], CommitsIn(cs, a, n))
    decreases n
  {
    if a < n {
      LeadsToReplay(gs, cs, a, n - 1);
      assert Leads(gs[n - 1], cs[n - 1], gs[n]);
      if cs[n - 1].Some? {
        ReplayAppend(gs[a], CommitsIn(cs, a, n - 1), cs[n - 1].value);
      } else {
        assert CommitsIn(cs, a, n - 1) + [] == CommitsIn(cs, a, n - 1);
      }
    }
  }

  ghost predicate HaveRevisions(states: seq<State>) {
    forall i :: 0 <= i < |states| ==> states[i].revisions != []
  }

  /** The stored Gateway after each step. */
  function Versions(states: seq<State>): seq<Gateway>
    requires HaveRevisions(states)
  {
    seq(|states|, i requires 0 <= i < |states| && states[i].revisions != [] => Newest(states[i]))
  }

  lemma RunIsChain(states: seq<State>, steps: seq<Step>)
    requires IsRun(states, steps)
    ensures Chain(states, steps) && HaveRevisions(states)
  {
    forall i | 0 <= i < |states| ensures states[i].revisions != [] {
      RunKeepsInv(states, steps, i);
    }
  }

  lemma ChainLeads(states: seq<State>, steps: seq<Step>, i: nat)
    requires Chain(states, steps) && HaveRevisions(states) && i < |steps| && !steps[i].Recreate?
    ensures Leads(Versions(states)[i], StepCauses(states, steps)[i], Versions(states)[i + 1])
  {
    var s, step := states[i], steps[i];
    assert Enabled(s, step) && states[i + 1] == Do(s, step);
    StepIsCommit(s, step);
  }

  /** For as long as the Gateway is not re-created, the one that a run of reconciles leaves is
      the replay of its commits, which is what `NoLostUpdate` says of the store. */
  lemma RunIsReplay(states: seq<State>, steps: seq<Step>, a: nat, n: nat)
    requires IsRun(states, steps) && a <= n < |states|
    requires forall i :: a <= i < n ==> !steps[i].Recreate?
    ensures Chain(states, steps) && HaveRevisions(states)
    ensures Versions(states)[n] ==
            OptimisticStore.Replay(GatewayStore.RULES, Versions(states)[a], CommitsIn(StepCauses(states, steps), a, n))
  {
    RunIsChain(states, steps);
    ChainIsReplay(states, steps, a, n);
  }

  lemma ChainIsReplay(states: seq<State>, steps: seq<Step>, a: nat, n: nat)
    requires Chain(states, steps) && HaveRevisions(states) && a <= n < |states|
    requires forall i :: a <= i < n ==> !steps[i].Recreate?
    ensures Versions(states)[n] ==
            OptimisticStore.Replay(GatewayStore.RULES, Versions(states)[a], CommitsIn(StepCauses(states, steps), a, n))
  {
    var gs, cs := Versions(states), StepCauses(states, steps);
    forall i | a <= i < n ensures Leads(gs[i], cs[i], gs[i + 1]) {
      ChainLeads(states, steps, i);
    }
    LeadsToReplay(gs, cs, a, n);
  }
}
