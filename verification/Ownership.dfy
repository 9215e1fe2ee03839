/** Create-or-update and cleanup of the infra objects of Gateways, over any number of
    reconciles for any Gateway keys, including keys whose infra names collide. One step is
    one client call, so a Get and the write that follows it can be interleaved with
    writes by other reconciles and by other managers, and a Get may be answered from a
    cache that is behind. */
module Ownership {
  import opened GatewayApi

  const MANAGED_BY_VALUE := "appnet-gateway-controller"

  datatype Kind = DeploymentKind | ServiceKind | SecretKind

  datatype ObjectKey = ObjectKey(kind: Kind, name: string)

  /** An object by what ownership depends on: its managed-by label and its source
      annotations, an absent one being empty, its content and its resource version. */
  datatype Object = Object(managedBy: string, sourceNamespace: string, sourceName: string, content: int, version: nat)

  predicate Foreign(o: Object) {
    o.managedBy != "" && o.managedBy != MANAGED_BY_VALUE
  }

  /** The checks of `deleteManagedGatewayObject`. */
  predicate MayDelete(o: Object, gw: NamespacedName) {
    && o.managedBy == MANAGED_BY_VALUE
    && (o.sourceNamespace == "" || o.sourceNamespace == gw.namespace)
    && (o.sourceName == "" || o.sourceName == gw.name)
  }

  function Rendered(gw: NamespacedName, content: int, version: nat): Object {
    Object(MANAGED_BY_VALUE, gw.namespace, gw.name, content, version)
  }

  /** What marks an object as this controller's and as the Gateway's: its label and its two
      source annotations. A cleanup for a Gateway may delete what was rendered for it, and
      for Gateways with real keys nothing rendered for another. */
  lemma RenderedMeans(gw: NamespacedName, other: NamespacedName, content: int, version: nat)
    requires gw.namespace != "" && gw.name != ""
    ensures var o := Rendered(gw, content, version);
      && o.managedBy == "appnet-gateway-controller" && o.sourceNamespace == gw.namespace && o.sourceName == gw.name
      && !Foreign(o) && (MayDelete(o, other) <==> other == gw)
  {
  }

  predicate SameSource(a: Object, b: Object) {
    a.managedBy == b.managedBy && a.sourceNamespace == b.sourceNamespace && a.sourceName == b.sourceName
  }

  // ----- one call at a time, on a cluster object -----

  datatype ApplyOutcome = Created | Updated | Refused

  /** The store after an `Apply` that nothing interferes with. */
  function AfterApply(objects: map<ObjectKey, Object>, clock: nat, key: ObjectKey, gw: NamespacedName, content: int)
    : map<ObjectKey, Object>
  {
    if key in objects && Foreign(objects[key]) then objects else objects[key := Rendered(gw, content, clock)]
  }

  /** The store after deleting one object of a Gateway, if that is allowed. */
  function AfterDelete(objects: map<ObjectKey, Object>, key: ObjectKey, gw: NamespacedName): map<ObjectKey, Object> {
    if key in objects && MayDelete(objects[key], gw) then objects - {key} else objects
  }

  class Cluster {
    var objects: map<ObjectKey, Object>
    var clock: nat

    constructor ()
      ensures objects == map[] && clock == 0
    {
      objects, clock := map[], 0;
    }

    /** `Apply` without interference. */
    method Apply(key: ObjectKey, gw: NamespacedName, content: int) returns (outcome: ApplyOutcome)
      modifies this
      ensures outcome == Refused <==> key in old(objects) && Foreign(old(objects)[key])
      ensures outcome == Created <==> key !in old(objects)
      ensures objects == AfterApply(old(objects), old(clock), key, gw, content)
      ensures clock == old(clock) + if outcome == Refused then 0 else 1
    {
      if key !in objects {
        objects := objects[key := Rendered(gw, content, clock)];
        clock := clock + 1;
        return Created;
      }
      var existing := objects[key];
      if existing.managedBy != "" && existing.managedBy != MANAGED_BY_VALUE {
        return Refused;
      }
      objects := objects[key := Rendered(gw, content, clock)];
      clock := clock + 1;
      outcome := Updated;
    }

    /** `deleteManagedGatewayObject` without interference. */
    method DeleteManaged(key: ObjectKey, gw: NamespacedName)
      modifies this
      ensures objects == AfterDelete(old(objects), key, gw) && clock == old(clock)
    {
      if key !in objects {
        return;
      }
      var o := objects[key];
      if o.managedBy != MANAGED_BY_VALUE {
        return;
      }
      if o.sourceNamespace != "" && o.sourceNamespace != gw.namespace {
        return;
      }
      if o.sourceName != "" && o.sourceName != gw.name {
        return;
      }
      objects := objects - {key};
    }

    /** `deleteAgentGateway`: the Deployment, the Service and the token Secret of one Gateway. */
    method DeleteAgentGateway(objectName: string, secretName: string, gw: NamespacedName)
      modifies this
      ensures objects == DeleteEach(old(objects),
        [ObjectKey(DeploymentKind, objectName), ObjectKey(ServiceKind, objectName),
         ObjectKey(SecretKind, secretName)], gw)
    {
      ghost var k0, k1 := ObjectKey(DeploymentKind, objectName), ObjectKey(ServiceKind, objectName);
      ghost var k2 := ObjectKey(SecretKind, secretName);
      ghost var o0 := objects;
      DeleteManaged(ObjectKey(DeploymentKind, objectName), gw);
      ghost var o1 := objects;
      DeleteManaged(ObjectKey(ServiceKind, objectName), gw);
      ghost var o2 := objects;
      DeleteManaged(ObjectKey(SecretKind, secretName), gw);
      assert [k2][1..] == [] && [k1, k2][1..] == [k2] && [k0, k1, k2][1..] == [k1, k2];
      assert DeleteEach(o2, [k2], gw) == DeleteEach(objects, [], gw);
      assert DeleteEach(o1, [k1, k2], gw) == DeleteEach(o2, [k2], gw);
      assert DeleteEach(o0, [k0, k1, k2], gw) == DeleteEach(o1, [k1, k2], gw);
    }
  }

  function DeleteEach(objects: map<ObjectKey, Object>, keys: seq<ObjectKey>,
                      gw: NamespacedName): map<ObjectKey, Object> {
    if keys == [] then objects
    else DeleteEach(AfterDelete(objects, keys[0], gw), keys[1..], gw)
  }

  /** Cleanup removes exactly the listed objects that are ours and not another Gateway's. */
  lemma {:induction false} DeleteEachExact(objects: map<ObjectKey, Object>, keys: seq<ObjectKey>, gw: NamespacedName,
                                           k: ObjectKey)
    ensures k in DeleteEach(objects, keys, gw) <==> k in objects && !(k in keys && MayDelete(objects[k], gw))
    ensures k in DeleteEach(objects, keys, gw) ==> DeleteEach(objects, keys, gw)[k] == objects[k]
  {
    if keys != [] {
      DeleteEachExact(AfterDelete(objects, keys[0], gw), keys[1..], gw, k);
      assert k in keys <==> k == keys[0] || k in keys[1..];
    }
  }

  // ----- every interleaving -----

  /** A reconcile between client calls. `seen` is the object its Get returned. */
  datatype Actor =
    | Applying(key: ObjectKey, gw: NamespacedName, content: int)
    | Creating(key: ObjectKey, gw: NamespacedName, content: int)
    | Updating(key: ObjectKey, gw: NamespacedName, content: int, seen: Object)
    | Cleaning(key: ObjectKey, gw: NamespacedName)
    | Deleting(key: ObjectKey, gw: NamespacedName, seen: Object)
    | Finished

  /** A write by this controller: what was there, and the Gateway it was last applied for. */
  datatype Event =
    | Wrote(key: ObjectKey, gw: NamespacedName, before: Option<Object>)
    | Removed(key: ObjectKey, gw: NamespacedName, seen: Object, removed: Object, lastFor: Option<NamespacedName>)

  /** `past` holds the store after every step so far, so that a cached read can return any
      of them. `appliedFor` records the Gateway that an object was last applied for, through
      writes by others, such as status writes, that leave its label and annotations alone. */
  datatype State = State(
    objects: map<ObjectKey, Object>,
    past: seq<map<ObjectKey, Object>>,
    clock: nat,
    appliedFor: map<ObjectKey, NamespacedName>,
    actors: map<nat, Actor>,
    log: seq<Event>)

  datatype Step =
    | Begin(id: nat, actor: Actor)
    | Call(id: nat, seenAt: nat)
    | OtherWrites(key: ObjectKey, managedBy: string, sourceNamespace: string, sourceName: string, content: int)
    | OtherDeletes(key: ObjectKey)

  predicate RealKey(gw: NamespacedName) {
    gw.namespace != "" && gw.name != ""
  }

  function Put(s: State, key: ObjectKey, o: Object): State {
    s.(objects := s.objects[key := o.(version := s.clock)], clock := s.clock + 1)
  }

  function Advance(s: State, id: nat, a: Actor): State {
    s.(actors := s.actors[id := a])
  }

  function OurWrite(s: State, id: nat, key: ObjectKey, gw: NamespacedName, content: int): State {
    var before := if key in s.objects then Some(s.objects[key]) else None;
    var t := Put(s, key, Rendered(gw, content, 0));
    Advance(t.(appliedFor := s.appliedFor[key := gw], log := s.log + [Wrote(key, gw, before)]), id, Finished)
  }

  /** A write by someone else. What it says about the object's Gateway stays known as long as
      label and annotations do. */
  function OtherWrite(s: State, key: ObjectKey, o: Object): State {
    var kept := key in s.objects && SameSource(s.objects[key], o);
    Put(s, key, o).(appliedFor := if kept then s.appliedFor else s.appliedFor - {key})
  }

  /** What the next client call of an actor does; a read sees the store as of `seenAt`. */
  function CallResult(s: State, id: nat, seenAt: nat): State
    requires id in s.actors && seenAt < |s.past|
  {
    var cache := s.past[seenAt];
    match s.actors[id]
    case Applying(key, gw, content) =>
      if key !in cache then Advance(s, id, Creating(key, gw, content))
      else if Foreign(cache[key]) then Advance(s, id, Finished)
      else Advance(s, id, Updating(key, gw, content, cache[key]))
    case Creating(key, gw, content) =>
      if key in s.objects then Advance(s, id, Finished) else OurWrite(s, id, key, gw, content)
    case Updating(key, gw, content, seen) =>
      if key in s.objects && s.objects[key].version == seen.version then OurWrite(s, id, key, gw, content)
      else Advance(s, id, Finished)
    case Cleaning(key, gw) =>
      if key in cache && MayDelete(cache[key], gw) then Advance(s, id, Deleting(key, gw, cache[key]))
      else Advance(s, id, Finished)
    case Deleting(key, gw, seen) =>
      if key !in s.objects then Advance(s, id, Finished)
      else
        var lastFor := if key in s.appliedFor then Some(s.appliedFor[key]) else None;
        Advance(s.(objects := s.objects - {key}, appliedFor := s.appliedFor - {key},
                   log := s.log + [Removed(key, gw, seen, s.objects[key], lastFor)]), id, Finished)
    case Finished => s
  }

  predicate Enabled(s: State, step: Step) {
    match step
    case Begin(id, actor) => id !in s.actors && (actor.Applying? || actor.Cleaning?) && RealKey(actor.gw)
    case Call(id, seenAt) => id in s.actors && seenAt < |s.past|
    case _ => true
  }

  function Effect(s: State, step: Step): State
    requires Enabled(s, step)
  {
    match step
    case Begin(id, actor) => Advance(s, id, actor)
    case Call(id, seenAt) => CallResult(s, id, seenAt)
    case OtherWrites(key, managedBy, ns, name, content) =>
      OtherWrite(s, key, Object(managedBy, ns, name, content, 0))
    case OtherDeletes(key) =>
      s.(objects := s.objects - {key}, appliedFor := s.appliedFor - {key})
  }

  function Do(s: State, step: Step): State
    requires Enabled(s, step)
  {
    var t := Effect(s, step);
    t.(past := t.past + [t.objects])
  }

  ghost predicate Init(s: State) {
    && s.past == [s.objects] && (forall k :: k in s.appliedFor ==> AppliedOk(s, k)) && s.actors == map[] && s.log == []
    && forall k :: k in s.objects ==> s.objects[k].version < s.clock
  }

  ghost predicate IsRun(states: seq<State>, steps: seq<Step>) {
    && |states| == |steps| + 1 && Init(states[0])
    && forall i {:trigger steps[i]} :: 0 <= i < |steps| ==>
      Enabled(states[i], steps[i]) && states[i + 1] == Do(states[i], steps[i])
  }

  /** The stored object is the one that was seen, if it still has that version. */
  ghost predicate Tracks(s: State, key: ObjectKey, seen: Object) {
    seen.version < s.clock && (key in s.objects && s.objects[key].version == seen.version ==> s.objects[key] == seen)
  }

  ghost predicate ActorOk(s: State, a: Actor) {
    match a
    case Updating(key, gw, _, seen) => RealKey(gw) && !Foreign(seen) && Tracks(s, key, seen)
    case Deleting(key, gw, seen) => RealKey(gw) && MayDelete(seen, gw) && Tracks(s, key, seen)
    case Finished => true
    case _ => RealKey(a.gw)
  }

  /** What cleanup should never break: the removed object is not another manager's and was
      not last applied for another Gateway. */
  predicate SafeRemoval(e: Event)
    requires e.Removed?
  {
    !Foreign(e.removed) && (e.lastFor.Some? ==> e.lastFor.value == e.gw)
  }

  predicate EventOk(e: Event) {
    match e
    case Wrote(_, _, before) => before.Some? ==> !Foreign(before.value)
    case Removed(_, gw, seen, removed, lastFor) =>
      && (lastFor.Some? ==> (SafeRemoval(e) <==> MayDelete(removed, gw)))
      && (MayDelete(removed, gw) ==> SafeRemoval(e))
      && (removed.version == seen.version ==> MayDelete(removed, gw))
      && (Foreign(removed) ==> lastFor.None? && removed.version != seen.version)
  }

  ghost predicate AppliedOk(s: State, k: ObjectKey)
    requires k in s.appliedFor
  {
    && k in s.objects && RealKey(s.appliedFor[k])
    && s.objects[k] == Rendered(s.appliedFor[k], s.objects[k].content, s.objects[k].version)
  }

  /** Whatever a cache may still return is tracked. */
  ghost predicate PastOk(s: State) {
    && s.past != [] && s.past[|s.past| - 1] == s.objects
    && forall v, k :: 0 <= v < |s.past| && k in s.past[v] ==> Tracks(s, k, s.past[v][k])
  }

  ghost predicate Inv(s: State) {
    && PastOk(s)
    && (forall k :: k in s.appliedFor ==> AppliedOk(s, k))
    && (forall id :: id in s.actors ==> ActorOk(s, s.actors[id]))
    && (forall i :: 0 <= i < |s.log| ==> EventOk(s.log[i]))
  }

  /** A step keeps what a reader knows about an object that was stored. */
  lemma EffectTracks(s: State, step: Step, key: ObjectKey, seen: Object)
    requires Enabled(s, step) && Tracks(s, key, seen)
    ensures Tracks(Effect(s, step), key, seen)
  {
    if step.Call? {
      match s.actors[step.id]
      case _ =>
    }
  }

  lemma EffectClock(s: State, step: Step, key: ObjectKey)
    requires Enabled(s, step) && (key in s.objects ==> s.objects[key].version < s.clock)
    ensures key in Effect(s, step).objects ==> Effect(s, step).objects[key].version < Effect(s, step).clock
    ensures Effect(s, step).past == s.past
  {
    if step.Call? {
      match s.actors[step.id]
      case _ =>
    }
  }

  lemma PastCurrent(s: State, key: ObjectKey)
    requires PastOk(s) && key in s.objects
    ensures s.objects[key].version < s.clock
  {
    assert key in s.past[|s.past| - 1];
    assert Tracks(s, key, s.past[|s.past| - 1][key]);
  }

  lemma DoPast(s: State, step: Step)
    requires PastOk(s) && Enabled(s, step)
    ensures PastOk(Do(s, step))
  {
    var e, t := Effect(s, step), Do(s, step);
    forall v, k | 0 <= v < |t.past| && k in t.past[v] ensures Tracks(t, k, t.past[v][k]) {
      if k in s.objects {
        PastCurrent(s, k);
      }
      EffectClock(s, step, k);
      if v < |s.past| {
        assert t.past[v] == s.past[v];
        EffectTracks(s, step, k, s.past[v][k]);
      }
      assert Tracks(e, k, t.past[v][k]);
    }
  }

  lemma CallActor(s: State, id: nat, seenAt: nat)
    requires id in s.actors && seenAt < |s.past| && ActorOk(s, s.actors[id]) && PastOk(s)
    ensures ActorOk(CallResult(s, id, seenAt), CallResult(s, id, seenAt).actors[id])
  {
    var a := s.actors[id];
    if (a.Applying? || a.Cleaning?) && a.key in s.past[seenAt] {
      assert Tracks(s, a.key, s.past[seenAt][a.key]);
    }
  }

  lemma OtherActor(s: State, step: Step, id: nat)
    requires Enabled(s, step) && !(step.Call? && step.id == id) && id in s.actors && ActorOk(s, s.actors[id])
    ensures id in Effect(s, step).actors && ActorOk(Effect(s, step), Effect(s, step).actors[id])
  {
    var a := s.actors[id];
    if a.Updating? || a.Deleting? {
      EffectTracks(s, step, a.key, a.seen);
    }
  }

  lemma EffectActors(s: State, step: Step, id: nat)
    requires Inv(s) && Enabled(s, step) && id in Effect(s, step).actors
    ensures ActorOk(Effect(s, step), Effect(s, step).actors[id])
  {
    if step.Call? && step.id == id {
      CallActor(s, id, step.seenAt);
    } else if id in s.actors {
      OtherActor(s, step, id);
    }
  }

  lemma CallApplied(s: State, id: nat, seenAt: nat, k: ObjectKey)
    requires id in s.actors && seenAt < |s.past| && ActorOk(s, s.actors[id])
    requires k in CallResult(s, id, seenAt).appliedFor && (k in s.appliedFor ==> AppliedOk(s, k))
    ensures AppliedOk(CallResult(s, id, seenAt), k)
  {
  }

  lemma EffectApplied(s: State, step: Step, k: ObjectKey)
    requires Inv(s) && Enabled(s, step) && k in Effect(s, step).appliedFor
    ensures AppliedOk(Effect(s, step), k)
  {
    if k in s.appliedFor {
      assert AppliedOk(s, k);
    }
    if step.Call? {
      assert ActorOk(s, s.actors[step.id]);
      CallApplied(s, step.id, step.seenAt, k);
    }
  }

  lemma EffectLog(s: State, step: Step)
    requires Inv(s) && Enabled(s, step)
    ensures forall i :: 0 <= i < |Effect(s, step).log| ==> EventOk(Effect(s, step).log[i])
  {
    if step.Call? {
      var a := s.actors[step.id];
      assert ActorOk(s, a);
      if a.Deleting? && a.key in s.appliedFor {
        assert AppliedOk(s, a.key);
      }
    }
  }

  lemma DoKeepsInv(s: State, step: Step)
    requires Inv(s) && Enabled(s, step)
    ensures Inv(Do(s, step))
  {
    var e, t := Effect(s, step), Do(s, step);
    DoPast(s, step);
    EffectLog(s, step);
    forall k | k in t.appliedFor ensures AppliedOk(t, k) {
      EffectApplied(s, step, k);
      assert AppliedOk(e, k);
    }
    forall id | id in t.actors ensures ActorOk(t, t.actors[id]) {
      EffectActors(s, step, id);
      SameActor(e, t, t.actors[id]);
    }
  }

  lemma SameActor(e: State, t: State, a: Actor)
    requires t.objects == e.objects && t.clock == e.clock && ActorOk(e, a)
    ensures ActorOk(t, a)
  {
  }

  lemma {:induction false} RunKeepsInv(states: seq<State>, steps: seq<Step>, n: nat)
    requires IsRun(states, steps) && n < |states|
    ensures Inv(states[n])
  {
    if n > 0 {
      RunKeepsInv(states, steps, n - 1);
      DoKeepsInv(states[n - 1], steps[n - 1]);
      assert states[n] == Do(states[n - 1], steps[n - 1]);
    } else {
      assert forall v :: 0 <= v < |states[0].past| ==> states[0].past[v] == states[0].objects;
    }
  }

  /** Ownership over whole runs. In every interleaving, with reads as stale as they may be, no
      create or update ever replaces an object labelled for another manager. A cleanup
      removes such an object, or one last applied for a different Gateway, only if the
      object is no longer the version that the cleanup's Get returned. */
  lemma OwnershipIsRespected(states: seq<State>, steps: seq<Step>, n: nat)
    requires IsRun(states, steps) && n < |states|
    ensures forall i :: 0 <= i < |states[n].log| ==> EventOk(states[n].log[i])
  {
    RunKeepsInv(states, steps, n);
  }

  /** Exactly when a cleanup of an object that this controller applied removes only what
      it should: when the guard that it evaluated on the object it read still holds of the
      object it deletes. The guard still holds if the version is the one it read, and it is
      always enough. Another manager's object goes only if it is not the version read. */
  lemma CleanupIsSafeIff(states: seq<State>, steps: seq<Step>, n: nat, i: nat)
    requires IsRun(states, steps) && n < |states| && i < |states[n].log| && states[n].log[i].Removed?
    ensures var e := states[n].log[i];
      && (e.lastFor.Some? ==> (SafeRemoval(e) <==> MayDelete(e.removed, e.gw)))
      && (MayDelete(e.removed, e.gw) ==> SafeRemoval(e))
      && (e.removed.version == e.seen.version ==> MayDelete(e.removed, e.gw))
      && (Foreign(e.removed) ==> e.lastFor.None? && e.removed.version != e.seen.version)
  {
    OwnershipIsRespected(states, steps, n);
    assert EventOk(states[n].log[i]);
  }

  // ----- the object's methods as uninterrupted steps -----

  lemma ApplyIsThreeSteps(s: State, id: nat, key: ObjectKey, gw: NamespacedName, content: int, seenAt: nat)
    requires PastOk(s) && id !in s.actors && RealKey(gw) && seenAt < |s.past| + 2
    ensures var s1 := Do(s, Begin(id, Applying(key, gw, content)));
      var s2 := Do(s1, Call(id, |s1.past| - 1));
      var s3 := Do(s2, Call(id, seenAt));
      && s3.objects == AfterApply(s.objects, s.clock, key, gw, content) && s3.actors[id] == Finished
      && s3.clock == s.clock + if key in s.objects && Foreign(s.objects[key]) then 0 else 1
  {
  }

  lemma DeleteIsThreeSteps(s: State, id: nat, key: ObjectKey, gw: NamespacedName, seenAt: nat)
    requires PastOk(s) && id !in s.actors && RealKey(gw) && seenAt < |s.past| + 2
    ensures var s1 := Do(s, Begin(id, Cleaning(key, gw)));
      var s2 := Do(s1, Call(id, |s1.past| - 1));
      var s3 := Do(s2, Call(id, seenAt));
      && s3.objects == AfterDelete(s.objects, key, gw) && s3.clock == s.clock && s3.actors[id] == Finished
  {
  }

  /** A cleanup that reads the current store, and whose Get and Delete are not interleaved
      with anything, removes only an object that is ours and was not last applied for
      another Gateway. */
  lemma AtomicCleanupIsSafe(states: seq<State>, steps: seq<Step>, n: nat, id: nat, seenAt: nat)
    requires IsRun(states, steps) && n + 2 < |states|
    requires steps[n].Call? && steps[n].id == id && steps[n].seenAt == |states[n].past| - 1
    requires steps[n + 1] == Call(id, seenAt)
    requires id in states[n].actors && states[n].actors[id].Cleaning?
    ensures var s, t, a := states[n], states[n + 2], states[n].actors[id];
      && (forall k :: k in s.objects && k != a.key ==> k in t.objects && t.objects[k] == s.objects[k])
      && (a.key in s.objects && a.key !in t.objects ==>
            s.objects[a.key].managedBy == MANAGED_BY_VALUE && (a.key in s.appliedFor ==> s.appliedFor[a.key] == a.gw))
  {
    RunKeepsInv(states, steps, n);
    var s, a := states[n], states[n].actors[id];
    assert states[n + 1] == Do(s, steps[n]);
    assert states[n + 2] == Do(states[n + 1], steps[n + 1]);
    if a.key in s.appliedFor {
      assert AppliedOk(s, a.key);
    }
  }

  lemma Extend(states: seq<State>, steps: seq<Step>, step: Step) returns (states': seq<State>, steps': seq<Step>)
    requires IsRun(states, steps) && Enabled(states[|states| - 1], step)
    ensures IsRun(states', steps') && |states'| == |states| + 1
    ensures states'[|states'| - 1] == Do(states[|states| - 1], step)
  {
    states', steps' := states + [Do(states[|states| - 1], step)], steps + [step];
    forall i | 0 <= i < |steps'| ensures Enabled(states'[i], steps'[i]) && states'[i + 1] == Do(states'[i], steps'[i]) {
      if i < |steps| { assert steps'[i] == steps[i]; }
    }
  }

  const FIRST := NamespacedName("a-b", "c")
  const SECOND := NamespacedName("a", "b-c")
  const SHARED := ObjectKey(DeploymentKind, "gw-a-b-c")
  const SHARED_STORE := map[SHARED := Rendered(FIRST, 1, 0)]

  /** A cleanup for the first Gateway has made its Get. */
  lemma CleanupHasRead() returns (states: seq<State>, steps: seq<Step>)
    ensures IsRun(states, steps)
    ensures var s := states[|states| - 1];
      && s.objects == SHARED_STORE && s.past != [] && s.past[0] == SHARED_STORE
      && s.actors == map[0 := Deleting(SHARED, FIRST, Rendered(FIRST, 1, 0))]
  {
    var s0 := State(SHARED_STORE, [SHARED_STORE], 1, map[], map[], []);
    states, steps := [s0], [];
    states, steps := Extend(states, steps, Begin(0, Cleaning(SHARED, FIRST)));
    states, steps := Extend(states, steps, Call(0, 0));
  }

  /** The second Gateway's Apply then takes the object over. */
  lemma ApplyTakesOver() returns (states: seq<State>, steps: seq<Step>)
    ensures IsRun(states, steps)
    ensures var s := states[|states| - 1];
      && SHARED in s.objects && SHARED in s.appliedFor && s.appliedFor[SHARED] == SECOND && s.past != []
      && 0 in s.actors && s.actors[0] == Deleting(SHARED, FIRST, Rendered(FIRST, 1, 0))
  {
    states, steps := CleanupHasRead();
    states, steps := Extend(states, steps, Begin(1, Applying(SHARED, SECOND, 2)));
    states, steps := Extend(states, steps, Call(1, 0));
    var s := states[|states| - 1];
    assert s.actors[1] == Updating(SHARED, SECOND, 2, Rendered(FIRST, 1, 0)) && s.objects == SHARED_STORE;
    states, steps := Extend(states, steps, Call(1, 0));
  }

  /** The interleaved case is real: `a-b/c` is cleaned up while `a/b-c`, which has the same
      infra name, reconciles. The cleanup's Get sees the first Gateway's object, the
      second Gateway's Apply takes the object over, and the Delete, which carries no
      resource version, removes it. */
  lemma InterleavedCleanupRemovesAnothers() returns (states: seq<State>, steps: seq<Step>)
    ensures IsRun(states, steps)
    ensures var log := states[|states| - 1].log;
      |log| > 0 && var e := log[|log| - 1]; e.Removed? && e.lastFor.Some? && e.lastFor.value != e.gw
  {
    assert |FIRST.namespace| != |SECOND.namespace|;
    states, steps := ApplyTakesOver();
    states, steps := Extend(states, steps, Call(0, 0));
  }
}
