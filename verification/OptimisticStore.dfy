/** Optimistic concurrency as the API server sees it: any number of writers, each repeating
    read, transform, compare and update, against one object whose every committed version
    is kept. A read may return any earlier version (the client reads through an informer
    cache); an update commits only if it was computed from the newest one. */
module OptimisticStore {
  import opened GatewayApi

  /** What a writer's operation makes of the object it read, given the time and whatever
      else the attempt reads (`Env`), or `None` when that fails; and what other actors may
      do to the object. */
  datatype Rules<!T, !Op, !Env, !Change> = Rules(
    transform: (T, Op, Env) -> Option<T>,
    change: (T, Change) -> T,
    legal: Change -> bool)

  datatype Cause<Op, Env, Change> = ByWriter(id: nat, op: Op, env: Env) | ByOther(change: Change)

  function Apply<T, Op, Env, Change>(r: Rules<T, Op, Env, Change>, x: T, c: Cause<Op, Env, Change>): T {
    match c
    case ByWriter(_, op, env) => r.transform(x, op, env).GetOr(x)
    case ByOther(change) => r.change(x, change)
  }

  datatype Outcome = Committed(index: nat) | Unchanged(version: nat) | GaveUp | Errored

  datatype Phase = Fetching | Deciding(version: nat) | Finished(outcome: Outcome)

  datatype Writer<Op> = Writer(op: Op, conflicts: nat, phase: Phase)

  /** `causes[i]` turned `history[i]` into `history[i + 1]`. */
  datatype Store<T, Op, Env, Change> = Store(
    history: seq<T>,
    causes: seq<Cause<Op, Env, Change>>,
    writers: map<nat, Writer<Op>>)

  /** Steps of `retry.DefaultRetry`. */
  const MAX_ATTEMPTS := 5

  datatype Step<Op, Env, Change> =
    | Start(id: nat, op: Op)
    | Fetch(id: nat, version: nat)
    | Decide(id: nat, env: Env)
    | Abort(id: nat)
    | External(change: Change)

  ghost predicate Init<T, Op, Env, Change>(s: Store<T, Op, Env, Change>) {
    |s.history| == 1 && s.causes == [] && s.writers == map[]
  }

  /** The end of one attempt: an error, nothing to write, a commit, or a conflict and
      perhaps a retry. Each attempt makes its reads anew. */
  ghost function DecideResult<T, Op, Env, Change>(r: Rules<T, Op, Env, Change>, s: Store<T, Op, Env, Change>, id: nat,
                                                  env: Env): Store<T, Op, Env, Change>
    requires id in s.writers && s.writers[id].phase.Deciding? && s.writers[id].phase.version < |s.history|
  {
    var w := s.writers[id];
    var v := w.phase.version;
    var result := r.transform(s.history[v], w.op, env);
    if result == None then
      s.(writers := s.writers[id := w.(phase := Finished(Errored))])
    else if result.value == s.history[v] then
      s.(writers := s.writers[id := w.(phase := Finished(Unchanged(v)))])
    else if v == |s.history| - 1 then
      Store(s.history + [result.value], s.causes + [ByWriter(id, w.op, env)],
          s.writers[id := w.(phase := Finished(Committed(v)))])
    else
      s.(writers := s.writers[id := Writer(w.op, w.conflicts + 1,
                      if w.conflicts + 1 < MAX_ATTEMPTS then Fetching else Finished(GaveUp))])
  }

  ghost predicate Next<T, Op, Env, Change>(r: Rules<T, Op, Env, Change>, s: Store<T, Op, Env, Change>,
                                           t: Store<T, Op, Env, Change>, step: Step<Op, Env, Change>) {
    match step
    case Start(id, op) =>
      id !in s.writers && t == s.(writers := s.writers[id := Writer(op, 0, Fetching)])
    case Fetch(id, version) =>
      && id in s.writers && s.writers[id].phase == Fetching && version < |s.history|
      && t == s.(writers := s.writers[id := s.writers[id].(phase := Deciding(version))])
    case Decide(id, env) =>
      && id in s.writers && s.writers[id].phase.Deciding? && s.writers[id].phase.version < |s.history|
      && t == DecideResult(r, s, id, env)
    case Abort(id) =>
      && id in s.writers && !s.writers[id].phase.Finished?
      && t == s.(writers := s.writers[id := s.writers[id].(phase := Finished(Errored))])
    case External(change) =>
      && r.legal(change) && s.history != []
      && t == s.(history := s.history + [r.change(s.history[|s.history| - 1], change)],
        causes := s.causes + [ByOther(change)])
  }

  ghost predicate IsRun<T, Op, Env, Change>(r: Rules<T, Op, Env, Change>, states: seq<Store<T, Op, Env, Change>>,
                                            steps: seq<Step<Op, Env, Change>>) {
    && |states| == |steps| + 1 && Init(states[0])
    && forall i {:trigger steps[i]} :: 0 <= i < |steps| ==> Next(r, states[i], states[i + 1], steps[i])
  }

  /** Every committed version is one cause's effect on its immediate predecessor, and no
      writer commits a version equal to the one before. */
  ghost predicate Linked<T, Op, Env, Change>(r: Rules<T, Op, Env, Change>, s: Store<T, Op, Env, Change>) {
    && |s.history| == |s.causes| + 1
    && forall i {:trigger s.causes[i]} :: 0 <= i < |s.causes| ==> LinkOk(r, s.history[i], s.causes[i], s.history[i + 1])
  }

  ghost predicate LinkOk<T, Op, Env, Change>(r: Rules<T, Op, Env, Change>, x: T, c: Cause<Op, Env, Change>, y: T) {
    && y == Apply(r, x, c) && (c.ByOther? ==> r.legal(c.change))
    && (c.ByWriter? ==> x != y && r.transform(x, c.op, c.env).Some?)
  }

  ghost predicate FoundUnchanged<T, Op, Env(!new), Change>(r: Rules<T, Op, Env, Change>, s: Store<T, Op, Env, Change>,
                                                           op: Op, version: nat) {
    version < |s.history| && exists env :: r.transform(s.history[version], op, env) == Some(s.history[version])
  }

  /** What a writer's outcome means. */
  ghost predicate WriterOk<T, Op, Env(!new), Change>(r: Rules<T, Op, Env, Change>, s: Store<T, Op, Env, Change>,
                                                     id: nat, w: Writer<Op>) {
    match w.phase
    case Finished(Committed(i)) =>
      i < |s.causes| && s.causes[i].ByWriter? && s.causes[i].id == id && s.causes[i].op == w.op
    case Finished(Unchanged(v)) => FoundUnchanged(r, s, w.op, v)
    case Finished(GaveUp) => w.conflicts == MAX_ATTEMPTS
    case Finished(Errored) => w.conflicts < MAX_ATTEMPTS
    case _ => w.conflicts < MAX_ATTEMPTS
  }

  ghost predicate CommitsOk<T, Op, Env, Change>(s: Store<T, Op, Env, Change>) {
    forall i {:trigger s.causes[i]} :: 0 <= i < |s.causes| && s.causes[i].ByWriter? ==>
      s.causes[i].id in s.writers && s.writers[s.causes[i].id].phase == Finished(Committed(i))
  }

  ghost predicate Inv<T, Op, Env(!new), Change>(r: Rules<T, Op, Env, Change>, s: Store<T, Op, Env, Change>) {
    Linked(r, s) && CommitsOk(s) && forall id :: id in s.writers ==> WriterOk(r, s, id, s.writers[id])
  }

  lemma NextKeepsLinked<T, Op, Env, Change>(r: Rules<T, Op, Env, Change>, s: Store<T, Op, Env, Change>,
                                            t: Store<T, Op, Env, Change>, step: Step<Op, Env, Change>)
    requires Linked(r, s) && CommitsOk(s) && Next(r, s, t, step)
    ensures Linked(r, t) && CommitsOk(t) && s.history <= t.history && s.causes <= t.causes
  {
  }

  lemma NextKeepsWriter<T, Op, Env(!new), Change>(r: Rules<T, Op, Env, Change>, s: Store<T, Op, Env, Change>,
                                                  t: Store<T, Op, Env, Change>, step: Step<Op, Env, Change>, id: nat)
    requires Inv(r, s) && Next(r, s, t, step) && id in t.writers && s.history <= t.history && s.causes <= t.causes
    ensures WriterOk(r, t, id, t.writers[id])
  {
    if id in s.writers {
      assert WriterOk(r, s, id, s.writers[id]);
    }
  }

  lemma NextKeepsInv<T, Op, Env(!new), Change>(r: Rules<T, Op, Env, Change>, s: Store<T, Op, Env, Change>,
                                               t: Store<T, Op, Env, Change>, step: Step<Op, Env, Change>)
    requires Inv(r, s) && Next(r, s, t, step)
    ensures Inv(r, t) && s.history <= t.history
  {
    NextKeepsLinked(r, s, t, step);
    forall id | id in t.writers ensures WriterOk(r, t, id, t.writers[id]) {
      NextKeepsWriter(r, s, t, step, id);
    }
  }

  lemma {:induction false} RunKeepsInv<T, Op, Env(!new), Change>(
      r: Rules<T, Op, Env, Change>, states: seq<Store<T, Op, Env, Change>>, steps: seq<Step<Op, Env, Change>>, n: nat)
    requires IsRun(r, states, steps) && n < |states|
    ensures Inv(r, states[n])
    ensures states[0].history <= states[n].history
  {
    if n > 0 {
      RunKeepsInv(r, states, steps, n - 1);
      NextKeepsInv(r, states[n - 1], states[n], steps[n - 1]);
    }
  }

  function Replay<T, Op, Env, Change>(r: Rules<T, Op, Env, Change>, x: T, causes: seq<Cause<Op, Env, Change>>): T {
    if causes == [] then x
    else Apply(r, Replay(r, x, causes[..|causes| - 1]), causes[|causes| - 1])
  }

  lemma {:induction false} LinkedReplays<T, Op, Env, Change>(
      r: Rules<T, Op, Env, Change>, s: Store<T, Op, Env, Change>, i: nat)
    requires Linked(r, s) && i < |s.history|
    ensures s.history[i] == Replay(r, s.history[0], s.causes[..i])
  {
    if i > 0 {
      LinkedReplays(r, s, i - 1);
      assert s.causes[..i][..i - 1] == s.causes[..i - 1];
      assert LinkOk(r, s.history[i - 1], s.causes[i - 1], s.history[i]);
    }
  }

  predicate SameWriter<Op, Env, Change>(causes: seq<Cause<Op, Env, Change>>, i: int, j: int) {
    && 0 <= i < |causes| && 0 <= j < |causes| && causes[i].ByWriter? && causes[j].ByWriter?
    && causes[i].id == causes[j].id
  }

  /** No lost update. In every run the stored object is the one-at-a-time application of
      every committed change in commit order; each writer commits at most once; one that
      reports success committed its own transform or found nothing to change, and one
      that gave up had every attempt rejected. A failed read or write is its own outcome. */
  lemma NoLostUpdate<T, Op, Env(!new), Change>(r: Rules<T, Op, Env, Change>, states: seq<Store<T, Op, Env, Change>>,
                                               steps: seq<Step<Op, Env, Change>>, n: nat)
    requires IsRun(r, states, steps) && n < |states|
    ensures var s := states[n];
      && |s.history| == |s.causes| + 1
      && (forall i :: 0 <= i < |s.history| ==> s.history[i] == Replay(r, states[0].history[0], s.causes[..i]))
      && (forall i, j :: SameWriter(s.causes, i, j) ==> i == j)
      && (forall id :: id in s.writers ==> WriterOk(r, s, id, s.writers[id]))
  {
    RunKeepsInv(r, states, steps, n);
    var s := states[n];
    assert s.history[0] == states[0].history[0];
    forall i | 0 <= i < |s.history| ensures s.history[i] == Replay(r, states[0].history[0], s.causes[..i]) {
      LinkedReplays(r, s, i);
    }
  }

  // ----- conflicts are retried -----

  /** The step is an attempt of the writer that changes the object and comes too late. */
  ghost predicate Conflicted<T, Op, Env, Change>(r: Rules<T, Op, Env, Change>, s: Store<T, Op, Env, Change>,
                                                 step: Step<Op, Env, Change>, id: nat) {
    && step.Decide? && step.id == id && id in s.writers && s.writers[id].phase.Deciding?
    && s.writers[id].phase.version < |s.history| - 1
    && var x := s.history[s.writers[id].phase.version];
      r.transform(x, s.writers[id].op, step.env) != None && r.transform(x, s.writers[id].op, step.env) != Some(x)
  }

  /** The step is a failed read or write of the writer, or its transform fails. */
  ghost predicate Fails<T, Op, Env, Change>(r: Rules<T, Op, Env, Change>, s: Store<T, Op, Env, Change>,
                                            step: Step<Op, Env, Change>, id: nat) {
    || (step.Abort? && step.id == id)
    || (&& step.Decide? && step.id == id && id in s.writers && s.writers[id].phase.Deciding?
        && s.writers[id].phase.version < |s.history|
        && r.transform(s.history[s.writers[id].phase.version], s.writers[id].op, step.env) == None)
  }

  ghost function Conflicts<T, Op, Env, Change>(r: Rules<T, Op, Env, Change>, states: seq<Store<T, Op, Env, Change>>,
                                               steps: seq<Step<Op, Env, Change>>, id: nat, n: nat): nat
    requires n <= |steps| <= |states|
  {
    if n == 0 then 0
    else Conflicts(r, states, steps, id, n - 1) + if Conflicted(r, states[n - 1], steps[n - 1], id) then 1 else 0
  }

  ghost predicate FailedBefore<T, Op, Env, Change>(r: Rules<T, Op, Env, Change>, states: seq<Store<T, Op, Env, Change>>,
                                                   steps: seq<Step<Op, Env, Change>>, id: nat, n: nat)
    requires n <= |steps| <= |states|
  {
    exists i :: 0 <= i < n && Fails(r, states[i], steps[i], id)
  }

  /** What one step does to a writer, by what the attempt found. */
  lemma AttemptStep<T, Op, Env, Change>(r: Rules<T, Op, Env, Change>, s: Store<T, Op, Env, Change>,
                                        t: Store<T, Op, Env, Change>, step: Step<Op, Env, Change>, id: nat)
    requires Next(r, s, t, step) && (id in s.writers ==> id in t.writers)
    ensures id !in s.writers ==> !Conflicted(r, s, step, id) && !Fails(r, s, step, id)
    ensures id !in s.writers && id in t.writers ==> t.writers[id].conflicts == 0 && t.writers[id].phase == Fetching
    ensures id in s.writers ==>
      && t.writers[id].conflicts == s.writers[id].conflicts + (if Conflicted(r, s, step, id) then 1 else 0)
      && (t.writers[id].phase == Finished(Errored) <==>
            s.writers[id].phase == Finished(Errored) || Fails(r, s, step, id))
      && (t.writers[id].phase == Finished(GaveUp) <==>
            s.writers[id].phase == Finished(GaveUp) || (Conflicted(r, s, step, id) && t.writers[id].conflicts >= 5))
      && (Conflicted(r, s, step, id) && t.writers[id].conflicts < 5 ==> t.writers[id].phase == Fetching)
  {
  }

  lemma NextKeepsWriters<T, Op, Env, Change>(r: Rules<T, Op, Env, Change>, s: Store<T, Op, Env, Change>,
                                             t: Store<T, Op, Env, Change>, step: Step<Op, Env, Change>, id: nat)
    requires Next(r, s, t, step) && id in s.writers
    ensures id in t.writers && t.writers[id].op == s.writers[id].op
  {
  }

  lemma FailedBeforeStep<T, Op, Env, Change>(r: Rules<T, Op, Env, Change>, states: seq<Store<T, Op, Env, Change>>,
                                             steps: seq<Step<Op, Env, Change>>, id: nat, n: nat)
    requires 0 < n <= |steps| <= |states|
    ensures FailedBefore(r, states, steps, id, n) <==>
      FailedBefore(r, states, steps, id, n - 1) || Fails(r, states[n - 1], steps[n - 1], id)
  {
  }

  /** What a writer's history of attempts makes of it. In every run its conflicts are exactly
      its attempts that came too late; it has given up exactly after five of them; it has
      erred exactly if a read, a write or the transform failed. So one that has lost fewer
      than five races and met no failure is still fetching or deciding, or has succeeded. */
  lemma {:induction false} ConflictsAreRetried<T, Op, Env, Change>(
      r: Rules<T, Op, Env, Change>, states: seq<Store<T, Op, Env, Change>>, steps: seq<Step<Op, Env, Change>>, id: nat,
      n: nat)
    requires IsRun(r, states, steps) && n < |states|
    ensures id !in states[n].writers ==>
      Conflicts(r, states, steps, id, n) == 0 && !FailedBefore(r, states, steps, id, n)
    ensures id in states[n].writers ==> var w := states[n].writers[id];
      && w.conflicts == Conflicts(r, states, steps, id, n) <= 5
      && (w.phase == Finished(GaveUp) <==> w.conflicts == 5)
      && (w.phase == Finished(Errored) <==> FailedBefore(r, states, steps, id, n))
  {
    if n > 0 {
      var s, t, step := states[n - 1], states[n], steps[n - 1];
      ConflictsAreRetried(r, states, steps, id, n - 1);
      if id in s.writers {
        NextKeepsWriters(r, s, t, step, id);
      }
      AttemptStep(r, s, t, step, id);
      FailedBeforeStep(r, states, steps, id, n);
    }
  }

  predicate StepOf<Op, Env, Change>(step: Step<Op, Env, Change>, id: nat) {
    !step.External? && step.id == id
  }

  lemma {:induction false} DecidingStays<T, Op, Env, Change>(
      r: Rules<T, Op, Env, Change>, states: seq<Store<T, Op, Env, Change>>, steps: seq<Step<Op, Env, Change>>, id: nat,
      i: nat, j: nat)
    requires IsRun(r, states, steps) && i < j < |states| && steps[i].Fetch? && steps[i].id == id
    requires forall k :: i < k < j ==> !StepOf(steps[k], id)
    ensures id in states[j].writers && states[i].history <= states[j].history
    ensures id in states[i].writers
    ensures states[j].writers[id] == states[i].writers[id].(phase := Deciding(steps[i].version))
    decreases j
  {
    if j == i + 1 {
      assert Next(r, states[i], states[j], steps[i]);
    } else {
      DecidingStays(r, states, steps, id, i, j - 1);
      assert Next(r, states[j - 1], states[j], steps[j - 1]);
    }
  }

  /** The loser of a race needs only one attempt in peace: a writer that fetches the newest
      version, and before whose decision nothing is committed, commits its transform of that
      version or finds nothing to change, unless the transform fails. */
  lemma FreshAttemptSettles<T, Op, Env, Change>(
      r: Rules<T, Op, Env, Change>, states: seq<Store<T, Op, Env, Change>>, steps: seq<Step<Op, Env, Change>>, id: nat,
      i: nat, j: nat)
    requires IsRun(r, states, steps) && i < j < |steps| && steps[i].Fetch? && steps[i].id == id
    requires steps[i].version == |states[i].history| - 1 && |states[j].history| == |states[i].history|
    requires steps[j].Decide? && steps[j].id == id && forall k :: i < k < j ==> !StepOf(steps[k], id)
    ensures id in states[i].writers && id in states[j + 1].writers && states[i].history != []
    ensures var x, w := states[i].history[|states[i].history| - 1], states[j + 1].writers[id];
      match r.transform(x, states[i].writers[id].op, steps[j].env)
      case None => w.phase == Finished(Errored)
      case Some(y) =>
        if y == x then w.phase.Finished? && w.phase.outcome.Unchanged? && states[j + 1].history == states[j].history
        else w.phase.Finished? && w.phase.outcome.Committed? && states[j + 1].history == states[j].history + [y]
  {
    DecidingStays(r, states, steps, id, i, j);
    assert Next(r, states[j], states[j + 1], steps[j]);
    assert Next(r, states[i], states[i + 1], steps[i]);
  }
}
