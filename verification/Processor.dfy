/** The coalescing work processor: a lock-protected map of per-key work states,
    enqueuers that create or dirty an entry, and one goroutine per entry that reconciles
    in rounds of at most three attempts until the entry is clean. One step of the
    transition system is one critical section, or the start or end of one reconcile call. */
module Processor {
  import opened GatewayApi

  type Key = NamespacedName

  datatype Cell = Cell(running: bool, dirty: bool)

  /** Where a worker goroutine is: created but not yet running, about to make attempt
      `attempt`, inside it, in the back-off after its failure, or about to lock. */
  datatype Pc = Spawned | Ready(attempt: nat) | Calling(attempt: nat) | BackingOff(attempt: nat) | Locking

  /** `cell` is the work-state pointer the goroutine was started with. */
  datatype Worker = Worker(key: Key, cell: nat, pc: Pc)

  datatype Event = Enqueued(key: Key) | CallStarted(key: Key, id: nat) | CallEnded(key: Key, id: nat, ok: bool)

  /** `heap` holds the allocated work states; pointers are its indices. `homes` (the key each
      was allocated for), `owner` (the worker started for each entry) and `log` are history
      variables: no step depends on them. */
  datatype State = State(
    states: map<Key, nat>,
    heap: seq<Cell>,
    workers: map<nat, Worker>,
    cancelled: bool,
    homes: seq<Key>,
    owner: map<Key, nat>,
    log: seq<Event>)

  const MAX_ATTEMPTS := 3

  datatype Step =
    | Enqueue(key: Key, id: nat)
    | Begin(id: nat)
    | StartCall(id: nat)
    | EndCall(id: nat, ok: bool)
    | Backoff(id: nat, viaDone: bool)
    | Release(id: nat)
    | Cancel

  ghost predicate Init(s: State) {
    s == State(map[], [], map[], false, [], map[], [])
  }

  function SetPc(s: State, id: nat, pc: Pc): State
    requires id in s.workers
  {
    s.(workers := s.workers[id := s.workers[id].(pc := pc)])
  }

  ghost predicate EnqueueStep(s: State, t: State, key: Key, id: nat) {
    var log := s.log + [Enqueued(key)];
    if key !in s.states then
      && id !in s.workers
      && t == s.(states := s.states[key := |s.heap|], heap := s.heap + [Cell(true, false)],
                 workers := s.workers[id := Worker(key, |s.heap|, Spawned)],
                 homes := s.homes + [key], owner := s.owner[key := id], log := log)
    else
      && s.states[key] < |s.heap|
      && var cell := s.heap[s.states[key]];
        if cell.running then
          t == s.(heap := s.heap[s.states[key] := cell.(dirty := true)], log := log)
        else
          && id !in s.workers
          && t == s.(heap := s.heap[s.states[key] := cell.(running := true)],
                     workers := s.workers[id := Worker(key, s.states[key], Spawned)],
                     owner := s.owner[key := id], log := log)
  }

  ghost predicate ReleaseStep(s: State, t: State, id: nat) {
    && id in s.workers && s.workers[id].pc == Locking && s.workers[id].cell < |s.heap|
    && var w := s.workers[id];
      if !s.heap[w.cell].dirty then
        t == s.(states := s.states - {w.key}, workers := s.workers - {id}, owner := s.owner - {w.key})
      else
        t == SetPc(s.(heap := s.heap[w.cell := s.heap[w.cell].(dirty := false)]), id, Ready(1))
  }

  ghost predicate Next(s: State, t: State, step: Step) {
    match step
    case Enqueue(key, id) => EnqueueStep(s, t, key, id)
    case Begin(id) =>
      id in s.workers && s.workers[id].pc == Spawned && t == SetPc(s, id, Ready(1))
    case StartCall(id) =>
      && id in s.workers && s.workers[id].pc.Ready?
      && t == SetPc(s, id, Calling(s.workers[id].pc.attempt)).(log := s.log + [CallStarted(s.workers[id].key, id)])
    case EndCall(id, ok) =>
      && id in s.workers && s.workers[id].pc.Calling?
      && t == SetPc(s, id, if ok then Locking else BackingOff(s.workers[id].pc.attempt)).(
                log := s.log + [CallEnded(s.workers[id].key, id, ok)])
    case Backoff(id, viaDone) =>
      && id in s.workers && s.workers[id].pc.BackingOff? && (viaDone ==> s.cancelled)
      && var a := s.workers[id].pc.attempt;
        t == SetPc(s, id, if viaDone || a >= MAX_ATTEMPTS then Locking else Ready(a + 1))
    case Release(id) => ReleaseStep(s, t, id)
    case Cancel => t == s.(cancelled := true)
  }

  ghost predicate IsRun(states: seq<State>, steps: seq<Step>) {
    && |states| == |steps| + 1 && Init(states[0])
    && forall i {:trigger steps[i]} :: 0 <= i < |steps| ==> Next(states[i], states[i + 1], steps[i])
  }

  // ----- entries and workers -----

  ghost predicate HasWorker(s: State, key: Key) {
    exists id :: id in s.workers && s.workers[id].key == key
  }

  /** Entries and live workers correspond one to one, through the entry's own pointer;
      every entry is running, and no two entries share a work state. */
  ghost predicate Exclusive(s: State) {
    && |s.homes| == |s.heap|
    && (forall k :: k in s.states ==> EntryOk(s, k))
    && (forall id :: id in s.workers ==> WorkerOk(s, id))
  }

  ghost predicate EntryOk(s: State, k: Key)
    requires k in s.states
  {
    && s.states[k] < |s.heap| == |s.homes| && s.heap[s.states[k]].running && s.homes[s.states[k]] == k
    && k in s.owner && s.owner[k] in s.workers && s.workers[s.owner[k]].key == k
  }

  ghost predicate WorkerOk(s: State, id: nat)
    requires id in s.workers
  {
    var w := s.workers[id];
    w.key in s.states && s.states[w.key] == w.cell && w.key in s.owner && s.owner[w.key] == id && AttemptOk(w.pc)
  }

  predicate AttemptOk(pc: Pc) {
    pc.Spawned? || pc.Locking? || 1 <= pc.attempt <= MAX_ATTEMPTS
  }

  lemma EnqueueEntry(s: State, t: State, step: Step, k: Key)
    requires |s.homes| == |s.heap| && Next(s, t, step) && step.Enqueue? && k in t.states
    requires k in s.states ==> EntryOk(s, k)
    requires step.key in s.states ==> EntryOk(s, step.key)
    ensures EntryOk(t, k)
  {
  }

  lemma EnqueueWorker(s: State, t: State, step: Step, id: nat)
    requires Next(s, t, step) && step.Enqueue? && id in t.workers
    requires id in s.workers ==> WorkerOk(s, id)
    requires step.key in s.states ==> EntryOk(s, step.key)
    ensures WorkerOk(t, id)
  {
  }

  lemma EnqueueKeeps(s: State, t: State, step: Step)
    requires Exclusive(s) && Next(s, t, step) && step.Enqueue?
    ensures forall k :: k in t.states ==> EntryOk(t, k)
    ensures forall id :: id in t.workers ==> WorkerOk(t, id)
  {
    forall k | k in t.states ensures EntryOk(t, k) {
      EnqueueEntry(s, t, step, k);
    }
    forall id | id in t.workers ensures WorkerOk(t, id) {
      EnqueueWorker(s, t, step, id);
    }
  }

  lemma ReleaseEntry(s: State, t: State, step: Step, k: Key)
    requires Next(s, t, step) && step.Release? && k in t.states
    requires k in s.states ==> EntryOk(s, k)
    requires WorkerOk(s, step.id)
    ensures EntryOk(t, k)
  {
  }

  lemma ReleaseWorker(s: State, t: State, step: Step, id: nat)
    requires Next(s, t, step) && step.Release? && id in t.workers
    requires id in s.workers ==> WorkerOk(s, id)
    requires WorkerOk(s, step.id)
    ensures WorkerOk(t, id)
  {
  }

  lemma ReleaseKeeps(s: State, t: State, step: Step)
    requires Exclusive(s) && Next(s, t, step) && step.Release?
    ensures forall k :: k in t.states ==> EntryOk(t, k)
    ensures forall id :: id in t.workers ==> WorkerOk(t, id)
  {
    forall k | k in t.states ensures EntryOk(t, k) {
      ReleaseEntry(s, t, step, k);
    }
    forall id | id in t.workers ensures WorkerOk(t, id) {
      ReleaseWorker(s, t, step, id);
    }
  }

  /** A step of one goroutine outside the lock moves its program counter only. */
  lemma PcStepFrame(s: State, t: State, step: Step)
    requires Next(s, t, step) && !step.Enqueue? && !step.Release?
    ensures t.states == s.states && t.heap == s.heap && t.homes == s.homes && t.owner == s.owner
    ensures t.workers.Keys == s.workers.Keys
  {
  }

  lemma PcStepWorker(s: State, t: State, step: Step, id: nat)
    requires Next(s, t, step) && !step.Enqueue? && !step.Release? && id in s.workers && id in t.workers
    ensures t.workers[id] == s.workers[id].(pc := t.workers[id].pc)
    ensures AttemptOk(s.workers[id].pc) ==> AttemptOk(t.workers[id].pc)
  {
  }

  lemma PcStepEntry(s: State, t: State, step: Step, k: Key)
    requires Next(s, t, step) && !step.Enqueue? && !step.Release? && k in s.states && EntryOk(s, k)
    ensures k in t.states && EntryOk(t, k)
  {
    PcStepFrame(s, t, step);
    PcStepWorker(s, t, step, s.owner[k]);
  }

  lemma PcStepKeeps(s: State, t: State, step: Step)
    requires Exclusive(s) && Next(s, t, step) && !step.Enqueue? && !step.Release?
    ensures forall k :: k in t.states ==> EntryOk(t, k)
    ensures forall id :: id in t.workers ==> WorkerOk(t, id)
  {
    PcStepFrame(s, t, step);
    forall k | k in t.states ensures EntryOk(t, k) {
      PcStepEntry(s, t, step, k);
    }
    forall id | id in t.workers ensures WorkerOk(t, id) {
      assert WorkerOk(s, id);
      PcStepWorker(s, t, step, id);
    }
  }

  lemma NextKeepsExclusive(s: State, t: State, step: Step)
    requires Exclusive(s) && Next(s, t, step)
    ensures Exclusive(t)
  {
    if step.Enqueue? {
      EnqueueKeeps(s, t, step);
    } else if step.Release? {
      ReleaseKeeps(s, t, step);
    } else {
      PcStepKeeps(s, t, step);
    }
  }

  lemma {:induction false} RunKeepsExclusive(states: seq<State>, steps: seq<Step>, n: nat)
    requires IsRun(states, steps) && n < |states|
    ensures Exclusive(states[n])
  {
    if n > 0 {
      RunKeepsExclusive(states, steps, n - 1);
      NextKeepsExclusive(states[n - 1], states[n], steps[n - 1]);
    }
  }

  // ----- the system as one key sees it -----

  /** No entry, or an entry with its dirty bit, its one worker and where that worker is. */
  datatype KeyState = Absent | Present(dirty: bool, id: nat, pc: Pc)

  ghost function See(s: State, key: Key): KeyState {
    if key in s.states && s.states[key] < |s.heap| && key in s.owner && s.owner[key] in s.workers then
      Present(s.heap[s.states[key]].dirty, s.owner[key], s.workers[s.owner[key]].pc)
    else Absent
  }

  predicate Mine(v: KeyState, step: Step) {
    v.Present? && !step.Enqueue? && !step.Cancel? && step.id == v.id
  }

  /** How a step changes what the key sees. */
  predicate KeyNext(v: KeyState, u: KeyState, step: Step, key: Key) {
    if step.Enqueue? && step.key == key then
      u == if v.Absent? then Present(false, step.id, Spawned) else v.(dirty := true)
    else if !Mine(v, step) then u == v
    else match step
      case Begin(_) => v.pc == Spawned && u == v.(pc := Ready(1))
      case StartCall(_) => v.pc.Ready? && u == v.(pc := Calling(v.pc.attempt))
      case EndCall(_, ok) => v.pc.Calling? && u == v.(pc := if ok then Locking else BackingOff(v.pc.attempt))
      case Backoff(_, viaDone) =>
        v.pc.BackingOff? &&
        u == v.(pc := if viaDone || v.pc.attempt >= MAX_ATTEMPTS then Locking else Ready(v.pc.attempt + 1))
      case Release(_) => v.pc == Locking && u == if v.dirty then Present(false, v.id, Ready(1)) else Absent
  }

  /** What a step adds to the log, as far as the key is concerned. */
  predicate KeyLogs(log: seq<Event>, log': seq<Event>, v: KeyState, step: Step, key: Key) {
    if step.Enqueue? && step.key == key then log' == log + [Enqueued(key)]
    else if Mine(v, step) && step.StartCall? then log' == log + [CallStarted(key, v.id)]
    else if Mine(v, step) && step.EndCall? then log' == log + [CallEnded(key, v.id, step.ok)]
    else log' == log || (log <= log' && |log'| == |log| + 1 && log'[|log|].key != key)
  }

  lemma EnqueueKeyStep(s: State, t: State, step: Step, key: Key)
    requires |s.homes| == |s.heap| && Next(s, t, step) && step.Enqueue?
    requires key in s.states ==> EntryOk(s, key)
    requires step.key in s.states ==> EntryOk(s, step.key)
    ensures KeyNext(See(s, key), See(t, key), step, key)
  {
  }

  lemma ReleaseKeyStep(s: State, t: State, step: Step, key: Key)
    requires Next(s, t, step) && step.Release?
    requires WorkerOk(s, step.id) && EntryOk(s, s.workers[step.id].key)
    requires key in s.states ==> EntryOk(s, key)
    ensures KeyNext(See(s, key), See(t, key), step, key)
  {
  }

  lemma PcKeyStep(s: State, t: State, step: Step, key: Key)
    requires Next(s, t, step) && !step.Enqueue? && !step.Release?
    requires key in s.states ==> EntryOk(s, key)
    ensures KeyNext(See(s, key), See(t, key), step, key)
  {
  }

  lemma KeyStep(s: State, t: State, step: Step, key: Key)
    requires Exclusive(s) && Next(s, t, step)
    ensures KeyNext(See(s, key), See(t, key), step, key)
  {
    if step.Enqueue? {
      EnqueueKeyStep(s, t, step, key);
    } else if step.Release? {
      assert WorkerOk(s, step.id);
      ReleaseKeyStep(s, t, step, key);
    } else {
      PcKeyStep(s, t, step, key);
    }
  }

  lemma KeyLog(s: State, t: State, step: Step, key: Key)
    requires Exclusive(s) && Next(s, t, step)
    ensures KeyLogs(s.log, t.log, See(s, key), step, key)
  {
    if key in s.states {
      assert EntryOk(s, key);
    }
    if step.StartCall? || step.EndCall? {
      assert WorkerOk(s, step.id);
    }
  }

  /** A run as one key sees it. */
  ghost predicate KeyRun(vs: seq<KeyState>, logs: seq<seq<Event>>, steps: seq<Step>, key: Key) {
    && |vs| == |logs| == |steps| + 1 && vs[0] == Absent && logs[0] == []
    && (forall i :: 0 <= i < |vs| && vs[i].Present? ==> AttemptOk(vs[i].pc))
    && forall i {:trigger steps[i]} :: 0 <= i < |steps| ==>
      KeyNext(vs[i], vs[i + 1], steps[i], key) && KeyLogs(logs[i], logs[i + 1], vs[i], steps[i], key)
  }

  ghost predicate Projects(states: seq<State>, steps: seq<Step>, key: Key, vs: seq<KeyState>, logs: seq<seq<Event>>) {
    && |states| == |vs| == |logs| == |steps| + 1
    && (forall n :: 0 <= n < |states| ==> logs[n] == states[n].log)
    && (forall n :: 0 <= n < |states| ==> (vs[n].Absent? <==> key !in states[n].states))
    && forall n {:trigger steps[n]} :: 0 <= n < |steps| ==>
      (Mine(vs[n], steps[n]) <==> WorkStep(states[n], steps[n], key))
  }

  lemma SeeFacts(s: State, step: Step, key: Key)
    requires Exclusive(s)
    ensures Mine(See(s, key), step) <==> WorkStep(s, step, key)
    ensures See(s, key).Present? ==> AttemptOk(See(s, key).pc)
  {
    if key in s.states {
      assert EntryOk(s, key);
      assert WorkerOk(s, s.owner[key]);
    }
    if WorkStep(s, step, key) {
      assert WorkerOk(s, step.id);
    }
  }

  lemma Project(states: seq<State>, steps: seq<Step>, key: Key) returns (vs: seq<KeyState>, logs: seq<seq<Event>>)
    requires IsRun(states, steps)
    ensures Projects(states, steps, key, vs, logs) && KeyRun(vs, logs, steps, key)
  {
    forall n | 0 <= n < |states| ensures Exclusive(states[n]) {
      RunKeepsExclusive(states, steps, n);
    }
    vs := seq(|states|, n requires 0 <= n < |states| && Exclusive(states[n]) => See(states[n], key));
    logs := seq(|states|, n requires 0 <= n < |states| => states[n].log);
    forall n | 0 <= n < |states|
      ensures vs[n].Present? ==> AttemptOk(vs[n].pc)
    {
      SeeFacts(states[n], Cancel, key);
    }
    forall n | 0 <= n < |steps|
      ensures KeyNext(vs[n], vs[n + 1], steps[n], key) && KeyLogs(logs[n], logs[n + 1], vs[n], steps[n], key)
      ensures Mine(vs[n], steps[n]) <==> WorkStep(states[n], steps[n], key)
    {
      KeyStep(states[n], states[n + 1], steps[n], key);
      KeyLog(states[n], states[n + 1], steps[n], key);
      SeeFacts(states[n], steps[n], key);
    }
  }

  /** The step is taken by the worker of `key`. */
  predicate WorkStep(s: State, step: Step, key: Key) {
    !step.Enqueue? && !step.Cancel? && step.id in s.workers && s.workers[step.id].key == key
  }

  // ----- mutual exclusion -----

  /** Reconcile calls of `key` that have started and not ended. */
  function OpenCalls(log: seq<Event>, key: Key): int {
    if log == [] then 0
    else OpenCalls(log[..|log| - 1], key) + Opens(log[|log| - 1], key)
  }

  function Opens(e: Event, key: Key): int {
    if e.key != key then 0 else if e.CallStarted? then 1 else if e.CallEnded? then -1 else 0
  }

  lemma OpenCallsStep(log: seq<Event>, log': seq<Event>, v: KeyState, u: KeyState, step: Step, key: Key)
    requires KeyNext(v, u, step, key) && KeyLogs(log, log', v, step, key)
    requires OpenCalls(log, key) == if v.Present? && v.pc.Calling? then 1 else 0
    ensures OpenCalls(log', key) == if u.Present? && u.pc.Calling? then 1 else 0
  {
    if log' != log {
      assert log'[..|log'| - 1] == log;
    }
  }

  lemma {:induction false} RunOpenCalls(vs: seq<KeyState>, logs: seq<seq<Event>>, steps: seq<Step>, n: nat, key: Key)
    requires KeyRun(vs, logs, steps, key) && n < |vs|
    ensures OpenCalls(logs[n], key) == if vs[n].Present? && vs[n].pc.Calling? then 1 else 0
  {
    if n > 0 {
      RunOpenCalls(vs, logs, steps, n - 1, key);
      OpenCallsStep(logs[n - 1], logs[n], vs[n - 1], vs[n], steps[n - 1], key);
    }
  }

  /** Mutual exclusion, over every interleaving: an entry exists exactly when one live
      worker for the key does, every entry is running, each worker's pointer is its own
      key's entry, so that none deletes another's, and at no moment are two reconcile calls
      of one key open. */
  lemma MutualExclusion(states: seq<State>, steps: seq<Step>, n: nat, key: Key)
    requires IsRun(states, steps) && n < |states|
    ensures var s := states[n];
      && (key in s.states <==> HasWorker(s, key))
      && (key in s.states ==> s.states[key] < |s.heap| && s.heap[s.states[key]].running)
      && (forall i, j :: i in s.workers && j in s.workers && s.workers[i].key == s.workers[j].key ==> i == j)
      && (forall id :: id in s.workers ==>
        s.workers[id].key in s.states && s.workers[id].cell == s.states[s.workers[id].key])
      && 0 <= OpenCalls(s.log, key) <= 1
  {
    var vs, logs := Project(states, steps, key);
    RunOpenCalls(vs, logs, steps, n, key);
    RunKeepsExclusive(states, steps, n);
    var s := states[n];
    if key in s.states {
      assert EntryOk(s, key);
    }
    assert forall id :: id in s.workers ==> WorkerOk(s, id);
  }

  // ----- no lost wake-up -----

  predicate IsStart(log: seq<Event>, key: Key, j: int) {
    0 <= j < |log| && log[j].CallStarted? && log[j].key == key
  }

  ghost predicate StartedAfter(log: seq<Event>, key: Key, i: int) {
    exists j :: i < j && IsStart(log, key, j)
  }

  ghost predicate StartedBy(log: seq<Event>, key: Key, id: nat, i: int) {
    exists j :: i < j && IsStart(log, key, j) && log[j].id == id
  }

  predicate CallPair(log: seq<Event>, key: Key, j: int, m: int) {
    IsStart(log, key, j) && j < m < |log| && log[m].CallEnded? && log[m].key == key && log[j].id == log[m].id
  }

  /** A reconcile call of `key` began after position `i` and has returned. */
  ghost predicate CompletedAfter(log: seq<Event>, key: Key, i: int) {
    exists j, m :: i < j && CallPair(log, key, j, m)
  }

  /** The enqueue at position `i` has been served, is being served, or will be. */
  ghost predicate Covered(log: seq<Event>, v: KeyState, key: Key, i: int) {
    || CompletedAfter(log, key, i)
    || (v.Present? && (v.dirty || v.pc == Spawned || v.pc == Ready(1)))
    || (v.Present? && v.pc.Calling? && StartedBy(log, key, v.id, i))
  }

  lemma CompletedGrows(a: seq<Event>, b: seq<Event>, key: Key, i: int)
    requires a <= b && CompletedAfter(a, key, i)
    ensures CompletedAfter(b, key, i)
  {
    var j, m :| i < j && CallPair(a, key, j, m);
    assert CallPair(b, key, j, m);
  }

  lemma StartedByGrows(a: seq<Event>, b: seq<Event>, key: Key, id: nat, i: int)
    requires a <= b && StartedBy(a, key, id, i)
    ensures StartedBy(b, key, id, i)
  {
    var j :| i < j && IsStart(a, key, j) && a[j].id == id;
    assert IsStart(b, key, j);
  }

  lemma CoveredStep(log: seq<Event>, log': seq<Event>, v: KeyState, u: KeyState, step: Step, key: Key, i: int)
    requires KeyNext(v, u, step, key) && KeyLogs(log, log', v, step, key) && i < |log|
    requires Covered(log, v, key, i)
    ensures Covered(log', u, key, i)
  {
    if CompletedAfter(log, key, i) {
      CompletedGrows(log, log', key, i);
    } else if v.pc.Calling? && StartedBy(log, key, v.id, i) {
      StartedByGrows(log, log', key, v.id, i);
      if Mine(v, step) {
        var j :| i < j && IsStart(log, key, j) && log[j].id == v.id;
        assert CallPair(log', key, j, |log|);
      }
    } else if Mine(v, step) && step.StartCall? {
      assert IsStart(log', key, |log|);
      assert StartedBy(log', key, v.id, i);
    }
  }

  lemma {:induction false} RunCovered(vs: seq<KeyState>, logs: seq<seq<Event>>, steps: seq<Step>, n: nat, key: Key,
                                      i: nat)
    requires KeyRun(vs, logs, steps, key) && n < |vs|
    requires i < |logs[n]| && logs[n][i] == Enqueued(key)
    ensures Covered(logs[n], vs[n], key, i)
  {
    assert n > 0;
    assert KeyLogs(logs[n - 1], logs[n], vs[n - 1], steps[n - 1], key);
    if i < |logs[n - 1]| {
      RunCovered(vs, logs, steps, n - 1, key, i);
      CoveredStep(logs[n - 1], logs[n], vs[n - 1], vs[n], steps[n - 1], key, i);
    }
  }

  /** No lost wake-up: whenever a key has no entry, each earlier enqueue of it was followed
      by a reconcile call that began after that enqueue and has returned, in every
      interleaving and whether or not the parent context was cancelled. */
  lemma NoLostWakeup(states: seq<State>, steps: seq<Step>, n: nat, key: Key, i: nat)
    requires IsRun(states, steps) && n < |states|
    requires i < |states[n].log| && states[n].log[i] == Enqueued(key)
    requires key !in states[n].states
    ensures CompletedAfter(states[n].log, key, i)
  {
    var vs, logs := Project(states, steps, key);
    RunCovered(vs, logs, steps, n, key, i);
  }

  // ----- rounds of at most three attempts -----

  predicate IsWork(step: Step, id: nat) {
    !step.Enqueue? && !step.Cancel? && step.id == id
  }

  /** Failed reconcile calls of the worker since its round began. */
  function RoundFailures(steps: seq<Step>, id: nat, n: nat): nat
    requires n <= |steps|
  {
    if n == 0 then 0
    else
      var step := steps[n - 1];
      if !IsWork(step, id) then RoundFailures(steps, id, n - 1)
      else if step.Begin? || step.Release? then 0
      else RoundFailures(steps, id, n - 1) + if step.EndCall? && !step.ok then 1 else 0
  }

  /** The last thing the worker did. */
  function LastWork(steps: seq<Step>, id: nat, n: nat): Option<Step>
    requires n <= |steps|
  {
    if n == 0 then None
    else if IsWork(steps[n - 1], id) then Some(steps[n - 1])
    else LastWork(steps, id, n - 1)
  }

  /** Why a round may be over: its last call succeeded, the context was cancelled while it
      backed off, or three calls failed. */
  ghost predicate RoundOver(cancelled: bool, steps: seq<Step>, id: nat, n: nat)
    requires n <= |steps|
  {
    || LastWork(steps, id, n) == Some(EndCall(id, true))
    || (cancelled && LastWork(steps, id, n) == Some(Backoff(id, true)))
    || RoundFailures(steps, id, n) == 3
  }

  ghost predicate RoundOk(s: State, steps: seq<Step>, id: nat, n: nat)
    requires n <= |steps| && id in s.workers
  {
    PcOk(s.workers[id].pc, s.cancelled, steps, id, n)
  }

  /** How a step changes one worker's program counter. */
  predicate PcNext(a: Pc, b: Pc, step: Step, cancelled: bool) {
    match step
    case Begin(_) => b == Ready(1)
    case StartCall(_) => a.Ready? && b == Calling(a.attempt)
    case EndCall(_, ok) => a.Calling? && b == if ok then Locking else BackingOff(a.attempt)
    case Backoff(_, viaDone) =>
      && a.BackingOff? && (viaDone ==> cancelled)
      && b == if viaDone || a.attempt >= 3 then Locking else Ready(a.attempt + 1)
    case Release(_) => b == Ready(1)
    case _ => false
  }

  lemma WorkerStep(s: State, t: State, step: Step, id: nat)
    requires Next(s, t, step) && id in t.workers
    ensures s.cancelled ==> t.cancelled
    ensures id !in s.workers ==> t.workers[id].pc == Spawned
    ensures id in s.workers && !IsWork(step, id) ==> t.workers[id] == s.workers[id]
    ensures id in s.workers && IsWork(step, id) ==> PcNext(s.workers[id].pc, t.workers[id].pc, step, t.cancelled)
  {
  }

  lemma RoundStep(s: State, t: State, steps: seq<Step>, id: nat, n: nat)
    requires 0 < n <= |steps| && Next(s, t, steps[n - 1]) && id in t.workers
    requires id in s.workers ==> RoundOk(s, steps, id, n - 1)
    ensures RoundOk(t, steps, id, n)
  {
    WorkerStep(s, t, steps[n - 1], id);
    if id in s.workers {
      RoundPc(s.workers[id].pc, t.workers[id].pc, s.cancelled, t.cancelled, steps, id, n);
    }
  }

  ghost predicate PcOk(pc: Pc, cancelled: bool, steps: seq<Step>, id: nat, n: nat)
    requires n <= |steps|
  {
    match pc
    case Spawned => true
    case Ready(a) => a == RoundFailures(steps, id, n) + 1 && a <= 3
    case Calling(a) => a == RoundFailures(steps, id, n) + 1 && a <= 3
    case BackingOff(a) => a == RoundFailures(steps, id, n) <= 3
    case Locking => RoundOver(cancelled, steps, id, n)
  }

  lemma RoundPc(a: Pc, b: Pc, before: bool, after: bool, steps: seq<Step>, id: nat, n: nat)
    requires 0 < n <= |steps| && PcOk(a, before, steps, id, n - 1) && (before ==> after)
    requires if IsWork(steps[n - 1], id) then PcNext(a, b, steps[n - 1], after) else b == a
    ensures PcOk(b, after, steps, id, n)
  {
  }

  /** A round is never cut short and never goes on too long: in every run, a worker about to
      make an attempt has failed exactly the attempts before it, at most two; and one about
      to lock, at which point its key may be let go, has had a success, a cancelled
      context or three failures. */
  lemma {:induction false} RoundsAreFull(states: seq<State>, steps: seq<Step>, n: nat, id: nat)
    requires IsRun(states, steps) && n < |states| && id in states[n].workers
    ensures RoundOk(states[n], steps, id, n)
  {
    if n > 0 {
      if id in states[n - 1].workers {
        RoundsAreFull(states, steps, n - 1, id);
      }
      assert Next(states[n - 1], states[n], steps[n - 1]);
      RoundStep(states[n - 1], states[n], steps, id, n);
    }
  }

  // ----- how soon -----

  function WorkSteps(states: seq<State>, steps: seq<Step>, key: Key, a: nat, b: nat): nat
    requires a <= b <= |steps| && |states| == |steps| + 1
    decreases b
  {
    if a == b then 0
    else WorkSteps(states, steps, key, a, b - 1) + if WorkStep(states[b - 1], steps[b - 1], key) then 1 else 0
  }

  function Distance(pc: Pc): nat {
    match pc
    case Ready(_) => 1
    case Spawned => 2
    case Locking => 2
    case BackingOff(_) => 3
    case Calling(_) => 4
  }

  ghost predicate Within(log: seq<Event>, v: KeyState, key: Key, i: int, d: int) {
    || StartedAfter(log, key, i)
    || (v.Present? && Distance(v.pc) <= d && (v.dirty || v.pc == Spawned || v.pc == Ready(1)))
  }

  lemma WithinStep(log: seq<Event>, log': seq<Event>, v: KeyState, u: KeyState, step: Step, key: Key, i: int, d: int)
    requires KeyNext(v, u, step, key) && KeyLogs(log, log', v, step, key) && i < |log|
    requires Within(log, v, key, i, d)
    ensures Within(log', u, key, i, if Mine(v, step) then d - 1 else d)
  {
    if StartedAfter(log, key, i) {
      var j :| i < j && IsStart(log, key, j);
      assert IsStart(log', key, j);
    } else if Mine(v, step) && step.StartCall? {
      assert IsStart(log', key, |log|);
    }
  }

  lemma WithinAtEnqueue(log: seq<Event>, log': seq<Event>, v: KeyState, u: KeyState, step: Step)
    requires step.Enqueue? && KeyNext(v, u, step, step.key) && KeyLogs(log, log', v, step, step.key)
    ensures |log| < |log'| && Within(log', u, step.key, |log|, 4)
  {
  }

  /** Steps of the key's worker among `steps[a..b]`, as the key sees them. */
  function MineSteps(vs: seq<KeyState>, steps: seq<Step>, a: nat, b: nat): nat
    requires a <= b <= |steps| && |vs| == |steps| + 1
    decreases b
  {
    if a == b then 0 else MineSteps(vs, steps, a, b - 1) + if Mine(vs[b - 1], steps[b - 1]) then 1 else 0
  }

  lemma {:induction false} SameCount(states: seq<State>, steps: seq<Step>, key: Key, vs: seq<KeyState>,
                                     logs: seq<seq<Event>>, a: nat, b: nat)
    requires Projects(states, steps, key, vs, logs) && a <= b <= |steps|
    ensures MineSteps(vs, steps, a, b) == WorkSteps(states, steps, key, a, b)
    decreases b
  {
    if a < b {
      SameCount(states, steps, key, vs, logs, a, b - 1);
    }
  }

  lemma {:induction false} WithinRun(vs: seq<KeyState>, logs: seq<seq<Event>>, steps: seq<Step>, a: nat, b: nat,
                                     key: Key, i: nat, d: int)
    requires KeyRun(vs, logs, steps, key) && a <= b <= |steps|
    requires i < |logs[a]| && Within(logs[a], vs[a], key, i, d)
    ensures i < |logs[b]| && Within(logs[b], vs[b], key, i, d - MineSteps(vs, steps, a, b))
    decreases b
  {
    if a < b {
      WithinRun(vs, logs, steps, a, b - 1, key, i, d);
      WithinStep(logs[b - 1], logs[b], vs[b - 1], vs[b], steps[b - 1], key, i, d - MineSteps(vs, steps, a, b - 1));
    }
  }

  lemma KeyWakeup(vs: seq<KeyState>, logs: seq<seq<Event>>, steps: seq<Step>, a: nat, b: nat, key: Key)
    requires KeyRun(vs, logs, steps, key) && a < b <= |steps| && steps[a].Enqueue? && steps[a].key == key
    requires MineSteps(vs, steps, a + 1, b) >= 4
    ensures StartedAfter(logs[b], key, |logs[a]|)
  {
    WithinAtEnqueue(logs[a], logs[a + 1], vs[a], vs[a + 1], steps[a]);
    WithinRun(vs, logs, steps, a + 1, b, key, |logs[a]|, 4);
  }

  /** However enqueues and other keys interleave, a reconcile call of the key begins within
      four steps of its worker after every enqueue. */
  lemma WakeupWithinFourSteps(states: seq<State>, steps: seq<Step>, a: nat, b: nat)
    requires IsRun(states, steps) && a < b <= |steps| && steps[a].Enqueue?
    requires WorkSteps(states, steps, steps[a].key, a + 1, b) >= 4
    ensures StartedAfter(states[b].log, steps[a].key, |states[a].log|)
  {
    var vs, logs := Project(states, steps, steps[a].key);
    SameCount(states, steps, steps[a].key, vs, logs, a + 1, b);
    KeyWakeup(vs, logs, steps, a, b, steps[a].key);
  }

  /** A worker is never stuck: some step of it is possible in every reachable state. */
  lemma WorkerCanStep(states: seq<State>, steps: seq<Step>, n: nat, key: Key) returns (step: Step, t: State)
    requires IsRun(states, steps) && n < |states| && key in states[n].states
    ensures WorkStep(states[n], step, key) && Next(states[n], t, step)
  {
    RunKeepsExclusive(states, steps, n);
    var s := states[n];
    assert EntryOk(s, key);
    var id := s.owner[key];
    var w := s.workers[id];
    assert WorkerOk(s, id);
    match w.pc
    case Spawned =>
      step, t := Begin(id), SetPc(s, id, Ready(1));
    case Ready(a) =>
      step, t := StartCall(id), SetPc(s, id, Calling(a)).(log := s.log + [CallStarted(key, id)]);
    case Calling(a) =>
      step, t := EndCall(id, true), SetPc(s, id, Locking).(log := s.log + [CallEnded(key, id, true)]);
    case BackingOff(a) =>
      step, t := Backoff(id, false), SetPc(s, id, if a >= MAX_ATTEMPTS then Locking else Ready(a + 1));
    case Locking =>
      step := Release(id);
      if s.heap[w.cell].dirty {
        t := SetPc(s.(heap := s.heap[w.cell := s.heap[w.cell].(dirty := false)]), id, Ready(1));
      } else {
        t := s.(states := s.states - {w.key}, workers := s.workers - {id}, owner := s.owner - {w.key});
      }
  }

  function Rank(pc: Pc): int {
    match pc
    case Locking => 1
    case BackingOff(a) => 2 + 3 * (MAX_ATTEMPTS - a)
    case Calling(a) => 3 + 3 * (MAX_ATTEMPTS - a)
    case Ready(a) => 4 + 3 * (MAX_ATTEMPTS - a)
    case Spawned => 11
  }

  /** Steps the worker can still take if the key is not enqueued again. */
  function Budget(v: KeyState): int {
    if v.Absent? then 0 else Rank(v.pc) + if v.dirty then 10 else 0
  }

  lemma BudgetStep(v: KeyState, u: KeyState, step: Step, key: Key)
    requires KeyNext(v, u, step, key) && !(step.Enqueue? && step.key == key)
    requires v.Present? ==> AttemptOk(v.pc)
    ensures Budget(u) + (if Mine(v, step) then 1 else 0) <= Budget(v)
  {
  }

  lemma {:induction false} BudgetRun(vs: seq<KeyState>, logs: seq<seq<Event>>, steps: seq<Step>, a: nat, b: nat,
                                     key: Key)
    requires KeyRun(vs, logs, steps, key) && a <= b <= |steps|
    requires forall i :: a <= i < b && steps[i].Enqueue? ==> steps[i].key != key
    ensures Budget(vs[b]) + MineSteps(vs, steps, a, b) <= Budget(vs[a])
    decreases b
  {
    if a < b {
      BudgetRun(vs, logs, steps, a, b - 1, key);
      BudgetStep(vs[b - 1], vs[b], steps[b - 1], key);
    }
  }

  lemma DrainProjected(states: seq<State>, steps: seq<Step>, vs: seq<KeyState>, logs: seq<seq<Event>>, a: nat, b: nat,
                       key: Key)
    requires Projects(states, steps, key, vs, logs) && KeyRun(vs, logs, steps, key) && a <= b <= |steps|
    requires forall k :: a <= k < b && steps[k].Enqueue? ==> steps[k].key != key
    ensures WorkSteps(states, steps, key, a, b) <= 21
    ensures WorkSteps(states, steps, key, a, b) == 21 ==> key !in states[b].states
  {
    BudgetRun(vs, logs, steps, a, b, key);
    SameCount(states, steps, key, vs, logs, a, b);
  }

  /** A key that is not enqueued again is let go within 21 steps of its worker, and by
      then every enqueue of it has been served. */
  lemma QuietKeyDrains(states: seq<State>, steps: seq<Step>, a: nat, b: nat, key: Key)
    requires IsRun(states, steps) && a <= b <= |steps|
    requires forall k :: a <= k < b && steps[k].Enqueue? ==> steps[k].key != key
    ensures WorkSteps(states, steps, key, a, b) <= 21
    ensures WorkSteps(states, steps, key, a, b) == 21 ==>
      key !in states[b].states && AllServed(states[b].log, key)
  {
    var vs, logs := Project(states, steps, key);
    DrainProjected(states, steps, vs, logs, a, b, key);
    if key !in states[b].states {
      forall i | 0 <= i < |states[b].log| && states[b].log[i] == Enqueued(key)
        ensures CompletedAfter(states[b].log, key, i)
      {
        NoLostWakeup(states, steps, b, key, i);
      }
    }
  }

  ghost predicate AllServed(log: seq<Event>, key: Key) {
    forall i :: 0 <= i < |log| && log[i] == Enqueued(key) ==> CompletedAfter(log, key, i)
  }

  // ----- the critical sections on the processor object -----

  /** What one critical section does to the visible map from keys to work states. */
  function EnqueueView(m: map<Key, Cell>, key: Key): map<Key, Cell> {
    if key !in m then m[key := Cell(true, false)]
    else if m[key].running then m[key := m[key].(dirty := true)]
    else m[key := m[key].(running := true)]
  }

  function ReleaseView(m: map<Key, Cell>, key: Key): map<Key, Cell>
    requires key in m
  {
    if m[key].dirty then m[key := m[key].(dirty := false)] else m - {key}
  }

  ghost function View(s: State): map<Key, Cell>
    requires Exclusive(s)
  {
    map k | k in s.states && EntryOk(s, k) :: s.heap[s.states[k]]
  }

  lemma ViewOf(s: State, k: Key)
    requires Exclusive(s)
    ensures k in View(s) <==> See(s, k).Present?
    ensures k in View(s) ==> View(s)[k] == Cell(true, See(s, k).dirty)
  {
    if k in s.states {
      assert EntryOk(s, k);
    }
  }

  function StepView(m: map<Key, Cell>, s: State, step: Step): map<Key, Cell> {
    if step.Enqueue? then EnqueueView(m, step.key)
    else if step.Release? && step.id in s.workers && s.workers[step.id].key in m then
      ReleaseView(m, s.workers[step.id].key)
    else m
  }

  /** The two maps agree at a key. */
  predicate SameAt(a: map<Key, Cell>, b: map<Key, Cell>, k: Key) {
    (k in a <==> k in b) && (k in a && k in b ==> a[k] == b[k])
  }

  lemma ViewEnqueueAt(s: State, t: State, step: Step, k: Key)
    requires Exclusive(s) && Exclusive(t) && step.Enqueue? && KeyNext(See(s, k), See(t, k), step, k)
    ensures SameAt(View(t), EnqueueView(View(s), step.key), k)
  {
    ViewOf(s, k);
    ViewOf(t, k);
    ViewOf(s, step.key);
  }

  lemma ViewReleaseAt(s: State, t: State, step: Step, k: Key)
    requires Exclusive(s) && Exclusive(t) && step.Release? && KeyNext(See(s, k), See(t, k), step, k)
    requires step.id in s.workers && s.workers[step.id].key in View(s)
    ensures SameAt(View(t), ReleaseView(View(s), s.workers[step.id].key), k)
  {
    ViewOf(s, k);
    ViewOf(t, k);
    SeeFacts(s, step, k);
  }

  lemma ViewOtherAt(s: State, t: State, step: Step, k: Key)
    requires Exclusive(s) && Exclusive(t) && !step.Enqueue? && !step.Release? && KeyNext(See(s, k), See(t, k), step, k)
    ensures SameAt(View(t), View(s), k)
  {
    ViewOf(s, k);
    ViewOf(t, k);
  }

  lemma ViewStepAt(s: State, t: State, step: Step, k: Key)
    requires Exclusive(s) && Exclusive(t) && KeyNext(See(s, k), See(t, k), step, k)
    requires step.Release? ==> step.id in s.workers
    ensures SameAt(View(t), StepView(View(s), s, step), k)
  {
    if step.Enqueue? {
      ViewEnqueueAt(s, t, step, k);
    } else if step.Release? {
      var key := s.workers[step.id].key;
      assert WorkerOk(s, step.id);
      SeeFacts(s, step, key);
      ViewOf(s, key);
      ViewReleaseAt(s, t, step, k);
    } else {
      ViewOtherAt(s, t, step, k);
    }
  }

  /** The transition system's map changes only as the object's critical sections say. */
  lemma StepsRefineCriticalSections(s: State, t: State, step: Step)
    requires Exclusive(s) && Next(s, t, step)
    ensures Exclusive(t) && View(t) == StepView(View(s), s, step)
  {
    NextKeepsExclusive(s, t, step);
    forall k: Key ensures SameAt(View(t), StepView(View(s), s, step), k) {
      KeyStep(s, t, step, k);
      ViewStepAt(s, t, step, k);
    }
    SameMaps(View(t), StepView(View(s), s, step));
  }

  lemma SameMaps(a: map<Key, Cell>, b: map<Key, Cell>)
    requires forall k: Key :: SameAt(a, b, k)
    ensures a == b
  {
    assert forall k :: k in a ==> SameAt(a, b, k);
    assert forall k :: k in b ==> SameAt(a, b, k);
  }

  class WorkState {
    var running: bool
    var dirty: bool

    constructor ()
      ensures !running && !dirty
    {
      running, dirty := false, false;
    }
  }

  class GatewayProcessor {
    var states: map<Key, WorkState>

    ghost predicate Valid()
      reads this
    {
      forall j, k :: j in states && k in states && states[j] == states[k] ==> j == k
    }

    ghost function CellOf(w: WorkState): Cell
      reads w
    {
      Cell(w.running, w.dirty)
    }

    ghost function Cells(): map<Key, Cell>
      reads this, states.Values
    {
      map k | k in states :: CellOf(states[k])
    }

    constructor ()
      ensures Valid() && Cells() == map[]
    {
      states := map[];
    }

    /** The locked part of `enqueue`; a non-null result is the state to start a worker with. */
    method Enqueue(key: Key) returns (spawn: WorkState?)
      requires Valid()
      modifies this, states.Values
      ensures Valid() && Cells() == EnqueueView(old(Cells()), key)
      ensures key in states && (key in old(states) ==> states == old(states))
      ensures spawn != null <==> key !in old(states) || !old(states[key].running)
      ensures spawn != null ==> states[key] == spawn
    {
      if key !in states {
        var created := new WorkState();
        states := states[key := created];
      }
      var state := states[key];
      if state.running {
        state.dirty := true;
        return null;
      }
      state.running := true;
      spawn := state;
    }

    /** The locked part of `run`; it reports whether the worker stops. */
    method Release(key: Key, state: WorkState) returns (stop: bool)
      requires Valid() && key in states && states[key] == state
      modifies this, state
      ensures Valid() && Cells() == ReleaseView(old(Cells()), key)
      ensures stop <==> !old(state.dirty)
      ensures stop ==> states == old(states) - {key}
      ensures !stop ==> states == old(states)
    {
      if !state.dirty {
        states := states - {key};
        return true;
      }
      state.dirty := false;
      stop := false;
    }
  }

  /** `reconcileWithRetries`: `results[a]` is the outcome of attempt `a + 1` and `done[a]`
      tells whether the select after it took the cancelled branch. A call is always made,
      and only success, cancellation or the third failure ends the round. */
  method ReconcileWithRetries(results: seq<bool>, done: seq<bool>) returns (calls: nat)
    requires |results| == |done| == MAX_ATTEMPTS
    ensures 1 <= calls <= MAX_ATTEMPTS
    ensures forall k :: 0 <= k < calls - 1 ==> !results[k] && !done[k]
    ensures calls < MAX_ATTEMPTS ==> results[calls - 1] || done[calls - 1]
  {
    calls := 0;
    for attempt := 1 to MAX_ATTEMPTS + 1
      invariant calls == attempt - 1
      invariant forall k :: 0 <= k < calls ==> !results[k] && !done[k]
    {
      calls := calls + 1;
      if results[attempt - 1] {
        return;
      }
      if done[attempt - 1] {
        return;
      }
    }
  }
}
