/** Status conditions: the upsert that every status write is made of, on values and
    on the Go slice it writes through. */
module Conditions {
  import opened GatewayApi

  predicate SameContent(a: Condition, b: Condition) {
    a.status == b.status && a.reason == b.reason && a.message == b.message
  }

  /** Two conditions that differ at most in their transition time. */
  predicate Alike(a: Condition, b: Condition) {
    a == b.(lastTransitionTime := a.lastTransitionTime)
  }

  function Upsert(cs: seq<Condition>, c: Condition): seq<Condition> {
    if cs == [] then [c]
    else if cs[0].kind == c.kind then [Renewed(cs[0], c)] + cs[1..]
    else [cs[0]] + Upsert(cs[1..], c)
  }

  function Renewed(prior: Condition, c: Condition): Condition {
    if SameContent(prior, c) then prior.(observedGeneration := c.observedGeneration) else c
  }

  /** The first condition of the given type, as `conditionByType` finds it. */
  function Lookup(cs: seq<Condition>, kind: string): Option<Condition> {
    if cs == [] then None
    else if cs[0].kind == kind then Some(cs[0])
    else Lookup(cs[1..], kind)
  }

  predicate UniqueKinds(cs: seq<Condition>) {
    forall i, j :: 0 <= i < j < |cs| ==> cs[i].kind != cs[j].kind
  }

  function Others(cs: seq<Condition>, kind: string): seq<Condition> {
    if cs == [] then []
    else (if cs[0].kind == kind then [] else [cs[0]]) + Others(cs[1..], kind)
  }

  /** The condition of the given type says exactly this. */
  predicate Shows(cs: seq<Condition>, kind: string, status: ConditionStatus, reason: string, message: string,
                  generation: int) {
    var d := Lookup(cs, kind);
    && d.Some? && d.value.kind == kind && d.value.status == status && d.value.reason == reason
    && d.value.message == message && d.value.observedGeneration == generation
  }

  /** Upserting `c` would change nothing. */
  predicate Settled(cs: seq<Condition>, c: Condition) {
    var d := Lookup(cs, c.kind);
    d.Some? && SameContent(d.value, c) && d.value.observedGeneration == c.observedGeneration
  }

  lemma {:induction false} LookupOfUpsert(cs: seq<Condition>, c: Condition, kind: string)
    ensures kind != c.kind ==> Lookup(Upsert(cs, c), kind) == Lookup(cs, kind)
    ensures Lookup(Upsert(cs, c), c.kind) ==
            match Lookup(cs, c.kind) case None => Some(c) case Some(prior) => Some(Renewed(prior, c))
    ensures Shows(Upsert(cs, c), c.kind, c.status, c.reason, c.message, c.observedGeneration)
    ensures var d, prior := Lookup(Upsert(cs, c), c.kind), Lookup(cs, c.kind);
      d.Some? && d.value.lastTransitionTime ==
        if && prior.Some? && prior.value.status == c.status && prior.value.reason == c.reason
           && prior.value.message == c.message
        then prior.value.lastTransitionTime else c.lastTransitionTime
  {
    if cs != [] && cs[0].kind != c.kind {
      LookupOfUpsert(cs[1..], c, kind);
      assert Upsert(cs, c)[1..] == Upsert(cs[1..], c);
    } else if cs != [] {
      assert Upsert(cs, c)[1..] == cs[1..];
    }
  }

  lemma {:induction false} UpsertKinds(cs: seq<Condition>, c: Condition, k: nat)
    requires k < |Upsert(cs, c)|
    ensures Upsert(cs, c)[k].kind == if k < |cs| then cs[k].kind else c.kind
    ensures |cs| <= |Upsert(cs, c)| <= |cs| + 1
    ensures |Upsert(cs, c)| == |cs| + 1 ==> forall i :: 0 <= i < |cs| ==> cs[i].kind != c.kind
  {
    if cs != [] && cs[0].kind != c.kind {
      assert Upsert(cs, c)[1..] == Upsert(cs[1..], c);
      UpsertKinds(cs[1..], c, if k == 0 then 0 else k - 1);
    }
  }

  /** An upsert keeps types unique and leaves the conditions of every other type
      as they were, in their order. */
  lemma {:induction false} UpsertFrame(cs: seq<Condition>, c: Condition)
    ensures Others(Upsert(cs, c), c.kind) == Others(cs, c.kind)
    ensures UniqueKinds(cs) ==> UniqueKinds(Upsert(cs, c))
  {
    if cs != [] && cs[0].kind != c.kind {
      UpsertFrame(cs[1..], c);
      assert Upsert(cs, c)[1..] == Upsert(cs[1..], c);
    } else if cs != [] {
      assert Upsert(cs, c)[1..] == cs[1..];
    }
    if UniqueKinds(cs) {
      forall i, j | 0 <= i < j < |Upsert(cs, c)| ensures Upsert(cs, c)[i].kind != Upsert(cs, c)[j].kind {
        UpsertKinds(cs, c, i);
        UpsertKinds(cs, c, j);
      }
    }
  }

  /** Exactly when an upsert is a no-op, which decides whether a status is written. */
  lemma {:induction false} UpsertNoop(cs: seq<Condition>, c: Condition)
    ensures Upsert(cs, c) == cs <==> Settled(cs, c)
  {
    if cs != [] && cs[0].kind != c.kind {
      UpsertNoop(cs[1..], c);
      assert cs == [cs[0]] + cs[1..];
      assert Upsert(cs, c)[1..] == Upsert(cs[1..], c);
    } else if cs != [] {
      assert Upsert(cs, c)[0] == Renewed(cs[0], c);
      assert cs == [cs[0]] + cs[1..];
    }
  }

  lemma {:induction false} LookupHasKind(cs: seq<Condition>, kind: string)
    ensures Lookup(cs, kind).Some? ==> Lookup(cs, kind).value.kind == kind
  {
    if cs != [] && cs[0].kind != kind {
      LookupHasKind(cs[1..], kind);
    }
  }

  /** A settled condition is one that shows what `c` says. */
  lemma SettledShows(cs: seq<Condition>, c: Condition)
    ensures Settled(cs, c) <==> Shows(cs, c.kind, c.status, c.reason, c.message, c.observedGeneration)
  {
    LookupHasKind(cs, c.kind);
  }

  /** After an upsert of `c`, one that differs only in time is a no-op. */
  lemma UpsertSettles(cs: seq<Condition>, c: Condition, later: Condition)
    requires Alike(c, later)
    ensures Settled(Upsert(cs, c), later)
    ensures Upsert(Upsert(cs, c), later) == Upsert(cs, c)
  {
    LookupOfUpsert(cs, c, c.kind);
    UpsertNoop(Upsert(cs, c), later);
  }

  /** An upsert of another type does not unsettle a condition. */
  lemma UpsertKeepsSettled(cs: seq<Condition>, c: Condition, settled: Condition)
    requires Settled(cs, settled) && c.kind != settled.kind
    ensures Settled(Upsert(cs, c), settled)
  {
    LookupOfUpsert(cs, c, settled.kind);
  }

  function UpsertAll(cs: seq<Condition>, incoming: seq<Condition>): seq<Condition>
    decreases |incoming|
  {
    if incoming == [] then cs else UpsertAll(Upsert(cs, incoming[0]), incoming[1..])
  }

  predicate AllAlike(a: seq<Condition>, b: seq<Condition>) {
    |a| == |b| && forall i :: 0 <= i < |a| ==> Alike(a[i], b[i])
  }

  predicate AllSettled(cs: seq<Condition>, incoming: seq<Condition>) {
    forall i :: 0 <= i < |incoming| ==> Settled(cs, incoming[i])
  }

  lemma {:induction false} UpsertAllKeepsSettled(cs: seq<Condition>, incoming: seq<Condition>, settled: Condition)
    requires Settled(cs, settled) && forall i :: 0 <= i < |incoming| ==> incoming[i].kind != settled.kind
    ensures Settled(UpsertAll(cs, incoming), settled)
    decreases |incoming|
  {
    if incoming != [] {
      UpsertKeepsSettled(cs, incoming[0], settled);
      UpsertAllKeepsSettled(Upsert(cs, incoming[0]), incoming[1..], settled);
    }
  }

  /** Upserting a list of distinct types settles every one of them. */
  lemma {:induction false} UpsertAllSettles(cs: seq<Condition>, incoming: seq<Condition>, later: seq<Condition>)
    requires UniqueKinds(incoming) && AllAlike(incoming, later)
    ensures AllSettled(UpsertAll(cs, incoming), later)
    decreases |incoming|
  {
    if incoming != [] {
      UpsertSettles(cs, incoming[0], later[0]);
      UpsertAllKeepsSettled(Upsert(cs, incoming[0]), incoming[1..], later[0]);
      UpsertAllSettles(Upsert(cs, incoming[0]), incoming[1..], later[1..]);
      forall i | 0 <= i < |later| ensures Settled(UpsertAll(cs, incoming), later[i]) {
        if i > 0 { assert later[i] == later[1..][i - 1]; }
      }
    }
  }

  lemma {:induction false} UpsertAllNoop(cs: seq<Condition>, incoming: seq<Condition>)
    requires AllSettled(cs, incoming)
    ensures UpsertAll(cs, incoming) == cs
  {
    if incoming != [] {
      UpsertNoop(cs, incoming[0]);
      UpsertAllNoop(cs, incoming[1..]);
    }
  }

  /** A Go slice of conditions: `len` elements of a backing array whose length is
      the capacity. */
  datatype Slice = Slice(backing: array<Condition>, len: nat)

  ghost predicate ValidSlice(s: Slice) {
    s.len <= s.backing.Length
  }

  ghost function View(s: Slice): seq<Condition>
    requires ValidSlice(s)
    reads s.backing
  {
    s.backing[..s.len]
  }

  method CloneSlice(s: Slice) returns (r: Slice)
    requires ValidSlice(s)
    ensures ValidSlice(r) && fresh(r.backing) && View(r) == View(s)
  {
    var a := new Condition[s.len](i requires 0 <= i < s.len <= s.backing.Length reads s.backing => s.backing[i]);
    r := Slice(a, s.len);
  }

  method Append(s: Slice, c: Condition) returns (r: Slice)
    requires ValidSlice(s)
    modifies s.backing
    ensures ValidSlice(r) && View(r) == old(View(s)) + [c]
    ensures if s.len < s.backing.Length then r.backing == s.backing else fresh(r.backing)
    ensures forall i :: 0 <= i < s.backing.Length && i != s.len ==> s.backing[i] == old(s.backing[i])
  {
    if s.len < s.backing.Length {
      s.backing[s.len] := c;
      r := Slice(s.backing, s.len + 1);
    } else {
      var a := new Condition[2 * s.len + 1](
        i requires s.len <= s.backing.Length reads s.backing => if 0 <= i < s.len then s.backing[i] else c);
      r := Slice(a, s.len + 1);
    }
  }

  lemma {:induction false} UpsertAt(cs: seq<Condition>, c: Condition, i: nat)
    requires i <= |cs| && forall k :: 0 <= k < i ==> cs[k].kind != c.kind
    ensures i == |cs| ==> Upsert(cs, c) == cs + [c]
    ensures i < |cs| && cs[i].kind == c.kind ==> Upsert(cs, c) == cs[i := Renewed(cs[i], c)]
  {
    if i > 0 {
      UpsertAt(cs[1..], c, i - 1);
      assert cs == [cs[0]] + cs[1..];
      if i < |cs| && cs[i].kind == c.kind {
        assert cs[i := Renewed(cs[i], c)] == [cs[0]] + cs[1..][i - 1 := Renewed(cs[i], c)];
      }
    }
  }

  /** The loop of `upsertCondition`: it writes the matching element in place, and on a
      miss it appends, in place too when the slice has spare capacity. */
  method UpsertCondition(s: Slice, c: Condition) returns (r: Slice)
    requires ValidSlice(s)
    modifies s.backing
    ensures ValidSlice(r) && View(r) == Upsert(old(View(s)), c)
    ensures r.backing == s.backing || fresh(r.backing)
    ensures fresh(r.backing) ==> s.backing[..] == old(s.backing[..])
    ensures forall i :: s.len < i < s.backing.Length ==> s.backing[i] == old(s.backing[i])
  {
    ghost var cs := View(s);
    var i := 0;
    while i < s.len
      invariant i <= s.len
      invariant forall k :: 0 <= k < i ==> s.backing[k].kind != c.kind
      invariant s.backing[..] == old(s.backing[..])
    {
      if s.backing[i].kind == c.kind {
        UpsertAt(cs, c, i);
        if SameContent(s.backing[i], c) {
          s.backing[i] := s.backing[i].(observedGeneration := c.observedGeneration);
        } else {
          s.backing[i] := c;
        }
        return s;
      }
      i := i + 1;
    }
    UpsertAt(cs, c, s.len);
    r := Append(s, c);
  }
}
