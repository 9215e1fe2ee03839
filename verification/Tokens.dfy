/** The member-cluster token kept in the infra token Secret: rotation near expiry, the
    expiration stamped on the pod template, and how fresh the stored token stays under the
    periodic refresh. Times are whole seconds. */
module Tokens {
  import opened GatewayApi

  const HOUR := 3600
  const REFRESH_WINDOW := 4 * HOUR
  const REFRESH_PERIOD := 3 * HOUR

  /** RFC 3339 formatting and parsing. */
  datatype TimeFormat = TimeFormat(format: int -> string, parse: string -> Option<int>)

  ghost predicate RoundTrips(f: TimeFormat) {
    f.parse("") == None && forall t :: f.format(t) != "" && f.parse(f.format(t)) == Some(t)
  }

  datatype TokenSecret = TokenSecret(token: string, expiration: Option<string>)

  /** The token Secret and the expiration annotation of the Deployment's pod template. */
  datatype Store = Store(secret: Option<TokenSecret>, podExpiration: Option<string>)

  datatype Grant = Grant(token: string, expires: int)

  /** `tokenSecretCurrent`. */
  predicate Current(f: TimeFormat, s: TokenSecret, now: int) {
    && s.token != "" && s.expiration.Some? && s.expiration.value != ""
    && var e := f.parse(s.expiration.value);
      e.Some? && e.value > now + REFRESH_WINDOW
  }

  /** A granted token counts as current exactly while it has more than four hours left. */
  lemma CurrentMeans(f: TimeFormat, g: Grant, now: int)
    requires RoundTrips(f)
    ensures Current(f, GrantedSecret(f, g), now) <==> g.token != "" && g.expires > now + 14400
  {
  }

  /** Rotation is neither early nor late: a round that read a token of ours and got a new one
      reported stored replaces it exactly when no more than four hours are left. */
  lemma RotatesExactlyWhenDue(f: TimeFormat, r: Round, g: Grant)
    requires RoundTrips(f) && g.token != "" && r.seen == Found(GrantedSecret(f, g))
    requires r.grant.Some? && r.grant.value.token != "" && r.secret == Stored
    ensures Rotates(f, r) <==> g.expires - r.at <= 14400
    ensures !Rotates(f, r) ==> Expiration(f, r) == Some(f.format(g.expires))
  {
    CurrentMeans(f, g, r.at);
  }

  /** How an `Apply` ended: it stored the object; its Get found none, Create answered
      AlreadyExists and it returned success without storing anything; or it failed. */
  datatype Applied = Stored | Existed | Errored

  /** One reconcile as far as the token goes. `seen` is what the read of the Secret returned,
      `Failed` also when the member ServiceAccount could not be applied; `grant` is the
      TokenRequest's answer, `None` an error or an empty expiration; `secret` and
      `deployment` say how each apply ended. */
  datatype Round = Round(
    at: int,
    seen: Fetched<TokenSecret>,
    grant: Option<Grant>,
    secret: Applied,
    deployment: Applied)

  /** The token that was read is kept. */
  predicate Keeps(f: TimeFormat, r: Round) {
    r.seen.Found? && Current(f, r.seen.value, r.at)
  }

  /** A new token was granted and its apply reported success. */
  predicate Obtains(f: TimeFormat, r: Round) {
    !r.seen.Failed? && !Keeps(f, r) && r.grant.Some? && r.grant.value.token != "" && r.secret != Errored
  }

  /** And it was stored. */
  predicate Rotates(f: TimeFormat, r: Round) {
    Obtains(f, r) && r.secret == Stored
  }

  /** The result of `ensureAgentGatewayMemberToken`: the expiration to stamp, or an error. */
  function Expiration(f: TimeFormat, r: Round): Option<string> {
    if Keeps(f, r) then r.seen.value.expiration
    else if Obtains(f, r) then Some(f.format(r.grant.value.expires))
    else None
  }

  predicate Succeeds(f: TimeFormat, r: Round) {
    Expiration(f, r).Some? && r.deployment != Errored
  }

  predicate Stamps(f: TimeFormat, r: Round) {
    Expiration(f, r).Some? && r.deployment == Stored
  }

  function GrantedSecret(f: TimeFormat, g: Grant): TokenSecret {
    TokenSecret(g.token, Some(f.format(g.expires)))
  }

  function AfterToken(f: TimeFormat, s: Store, r: Round): Store {
    if Rotates(f, r) then s.(secret := Some(GrantedSecret(f, r.grant.value))) else s
  }

  function AfterRound(f: TimeFormat, s: Store, r: Round): Store {
    var t := AfterToken(f, s, r);
    if Stamps(f, r) then t.(podExpiration := Expiration(f, r)) else t
  }

  class TokenKeeper {
    const f: TimeFormat
    var store: Store

    constructor (f: TimeFormat)
      ensures this.f == f && store == Store(None, None)
    {
      this.f := f;
      this.store := Store(None, None);
    }

    /** `ensureAgentGatewayMemberToken`, given what its Get returned and how its apply of
        the Secret ends. */
    method EnsureToken(now: int, seen: Fetched<TokenSecret>, grant: Option<Grant>, secret: Applied)
      returns (expiration: Option<string>)
      modifies this
      ensures expiration == Expiration(f, Round(now, seen, grant, secret, Errored))
      ensures store == AfterToken(f, old(store), Round(now, seen, grant, secret, Errored))
    {
      if seen.Found? {
        if Current(f, seen.value, now) {
          return seen.value.expiration;
        }
      } else if !seen.NotFound? {
        return None;
      }
      if grant.None? {
        return None;
      }
      if grant.value.token == "" {
        return None;
      }
      var expires := f.format(grant.value.expires);
      if secret == Errored {
        return None;
      }
      if secret == Stored {
        store := store.(secret := Some(TokenSecret(grant.value.token, Some(expires))));
      }
      expiration := Some(expires);
    }

    /** The token and Deployment part of `Reconcile`. */
    method Reconcile(r: Round) returns (ok: bool)
      modifies this
      ensures ok <==> Succeeds(f, r)
      ensures store == AfterRound(f, old(store), r)
    {
      var expiration := EnsureToken(r.at, r.seen, r.grant, r.secret);
      if expiration.None? || r.deployment == Errored {
        return false;
      }
      if r.deployment == Stored {
        store := store.(podExpiration := expiration);
      }
      ok := true;
    }
  }

  // ----- whole histories -----

  function After(f: TimeFormat, s: Store, rounds: seq<Round>): Store {
    if rounds == [] then s
    else AfterRound(f, After(f, s, rounds[..|rounds| - 1]), rounds[|rounds| - 1])
  }

  lemma AfterStep(f: TimeFormat, s: Store, rounds: seq<Round>, n: nat)
    requires n < |rounds|
    ensures After(f, s, rounds[..n + 1]) == AfterRound(f, After(f, s, rounds[..n]), rounds[n])
  {
    assert rounds[..n + 1][..n] == rounds[..n] && rounds[..n + 1][n] == rounds[n];
  }

  /** The stored token is usable and expires after `t`. */
  predicate ExpiresAfter(f: TimeFormat, s: Store, t: int) {
    && s.secret.Some? && s.secret.value.token != "" && s.secret.value.expiration.Some?
    && var e := f.parse(s.secret.value.expiration.value);
      e.Some? && e.value > t
  }

  predicate NoRotation(f: TimeFormat, rounds: seq<Round>, a: int, n: int) {
    forall k :: 0 <= a <= k < n <= |rounds| ==> !Rotates(f, rounds[k])
  }

  lemma {:induction false} SecretSince(f: TimeFormat, s: Store, rounds: seq<Round>, a: nat, n: nat)
    requires a <= n <= |rounds| && NoRotation(f, rounds, a, n)
    ensures After(f, s, rounds[..n]).secret == After(f, s, rounds[..a]).secret
    decreases n
  {
    if a < n {
      SecretSince(f, s, rounds, a, n - 1);
      AfterStep(f, s, rounds, n - 1);
    }
  }

  /** Round `m` is the last of the first `n` that stored a token. */
  predicate LastRotation(f: TimeFormat, rounds: seq<Round>, m: int, n: int) {
    0 <= m < n <= |rounds| && Rotates(f, rounds[m]) && NoRotation(f, rounds, m + 1, n)
  }

  /** What is stored, and until when it is good, is decided by the last rotation alone:
      successes that kept a token, or whose Create found the Secret there, count for
      nothing. Before any rotation the Secret is the initial one. */
  lemma ExpiryFollowsLastRotation(f: TimeFormat, s: Store, rounds: seq<Round>, n: nat, t: int)
    requires RoundTrips(f) && n <= |rounds|
    ensures NoRotation(f, rounds, 0, n) ==> After(f, s, rounds[..n]).secret == s.secret
    ensures forall m :: LastRotation(f, rounds, m, n) ==>
      && After(f, s, rounds[..n]).secret == Some(GrantedSecret(f, rounds[m].grant.value))
      && (ExpiresAfter(f, After(f, s, rounds[..n]), t) <==> rounds[m].grant.value.expires > t)
  {
    if NoRotation(f, rounds, 0, n) {
      SecretSince(f, s, rounds, 0, n);
      assert rounds[..0] == [];
    }
    forall m | LastRotation(f, rounds, m, n)
      ensures After(f, s, rounds[..n]).secret == Some(GrantedSecret(f, rounds[m].grant.value))
    {
      AfterStep(f, s, rounds, m);
      SecretSince(f, s, rounds, m + 1, n);
    }
  }

  lemma {:induction false} FindLastRotation(f: TimeFormat, rounds: seq<Round>, a: nat, n: nat) returns (m: int)
    requires a <= n <= |rounds|
    ensures m == -1 ==> NoRotation(f, rounds, a, n)
    ensures m != -1 ==> a <= m && LastRotation(f, rounds, m, n)
    decreases n
  {
    if a == n {
      m := -1;
    } else if Rotates(f, rounds[n - 1]) {
      m := n - 1;
    } else {
      m := FindLastRotation(f, rounds, a, n - 1);
    }
  }

  // ----- reads through a cache -----

  predicate RoundSucceeds(f: TimeFormat, rounds: seq<Round>, i: int) {
    0 <= i < |rounds| && Succeeds(f, rounds[i])
  }

  predicate InOrder(rounds: seq<Round>) {
    forall i, j :: 0 <= i <= j < |rounds| ==> rounds[i].at <= rounds[j].at
  }

  /** Round `i` read the Secret, or its absence, as the first `k` rounds left it. */
  ghost predicate ReadVersion(f: TimeFormat, s: Store, rounds: seq<Round>, i: int, k: int) {
    0 <= k <= i < |rounds| &&
    var stored := After(f, s, rounds[..k]).secret;
    match rounds[i].seen
    case Found(v) => stored == Some(v)
    case NotFound => stored == None
    case Failed => true
  }

  /** The version that was read was still the stored one at most `lag` seconds before. */
  ghost predicate ReadWithin(f: TimeFormat, s: Store, rounds: seq<Round>, i: int, lag: int) {
    exists k :: ReadVersion(f, s, rounds, i, k) && (k == i || rounds[k].at >= rounds[i].at - lag)
  }

  ghost predicate ReadsWithin(f: TimeFormat, s: Store, rounds: seq<Round>, lag: int) {
    forall i :: 0 <= i < |rounds| ==> ReadWithin(f, s, rounds, i, lag)
  }

  ghost predicate ReadPast(f: TimeFormat, s: Store, rounds: seq<Round>, i: int) {
    exists k :: ReadVersion(f, s, rounds, i, k)
  }

  ghost predicate ReadsThePast(f: TimeFormat, s: Store, rounds: seq<Round>) {
    forall i :: 0 <= i < |rounds| ==> ReadPast(f, s, rounds, i)
  }

  /** Create answers AlreadyExists only for a Secret that is stored, and only after the
      round's first read has missed it too: the second read is the later one. */
  ghost predicate CreatesAreTrue(f: TimeFormat, s: Store, rounds: seq<Round>) {
    forall i :: 0 <= i < |rounds| && Obtains(f, rounds[i]) && rounds[i].secret == Existed ==>
      rounds[i].seen.NotFound? && After(f, s, rounds[..i]).secret.Some?
  }

  predicate NoneExisted(rounds: seq<Round>) {
    forall i :: 0 <= i < |rounds| ==> rounds[i].secret != Existed
  }

  /** Every granted token outlives the refresh window by more than `lag`; a twelve-hour one
      does for every lag below eight hours. */
  predicate LongGrants(rounds: seq<Round>, lag: int) {
    forall i :: 0 <= i < |rounds| && rounds[i].grant.Some? ==>
      rounds[i].grant.value.expires > rounds[i].at + REFRESH_WINDOW + lag
  }

  /** No grant expires before an earlier one or before the token there was at first. Grants
      of one lifetime that start from no token are such. */
  predicate LaterGrantsLast(f: TimeFormat, s: Store, rounds: seq<Round>) {
    && (forall i, j :: 0 <= i <= j < |rounds| && rounds[i].grant.Some? && rounds[j].grant.Some? ==>
          rounds[i].grant.value.expires <= rounds[j].grant.value.expires)
    && forall i :: 0 <= i < |rounds| && rounds[i].grant.Some? ==> !ExpiresAfter(f, s, rounds[i].grant.value.expires)
  }

  /** What the reads must be like for the bound: at most `lag` behind; or as far behind as
      they like, if later grants last and no Create found the Secret there. */
  ghost predicate ReadsSuffice(f: TimeFormat, s: Store, rounds: seq<Round>, lag: int) {
    || (CreatesAreTrue(f, s, rounds) && ReadsWithin(f, s, rounds, lag))
    || (NoneExisted(rounds) && ReadsThePast(f, s, rounds) && LaterGrantsLast(f, s, rounds))
  }

  /** If later grants last, the life of the stored token is never shortened. */
  lemma NeverShortens(f: TimeFormat, s: Store, rounds: seq<Round>, k: nat, n: nat, t: int)
    requires RoundTrips(f) && LaterGrantsLast(f, s, rounds) && k <= n <= |rounds|
    requires ExpiresAfter(f, After(f, s, rounds[..k]), t)
    ensures ExpiresAfter(f, After(f, s, rounds[..n]), t)
  {
    var m := FindLastRotation(f, rounds, k, n);
    if m == -1 {
      SecretSince(f, s, rounds, k, n);
    } else {
      ExpiryFollowsLastRotation(f, s, rounds, n, t);
      var p := FindLastRotation(f, rounds, 0, k);
      ExpiryFollowsLastRotation(f, s, rounds, k, t);
      if p != -1 {
        assert rounds[p].grant.value.expires <= rounds[m].grant.value.expires;
      }
    }
  }

  /** A read at most `lag` behind: the Secret is still the one that was read, or it was
      granted no more than `lag` ago. */
  lemma RecentlyStored(f: TimeFormat, s: Store, rounds: seq<Round>, i: nat, k: nat, lag: nat)
    requires RoundTrips(f) && InOrder(rounds) && LongGrants(rounds, lag) && k <= i < |rounds|
    requires k == i || rounds[k].at >= rounds[i].at - lag
    ensures After(f, s, rounds[..i]).secret == After(f, s, rounds[..k]).secret
         || ExpiresAfter(f, After(f, s, rounds[..i]), rounds[i].at + REFRESH_WINDOW)
  {
    var m := FindLastRotation(f, rounds, k, i);
    if m == -1 {
      SecretSince(f, s, rounds, k, i);
    } else {
      ExpiryFollowsLastRotation(f, s, rounds, i, rounds[i].at + REFRESH_WINDOW);
      assert rounds[k].at <= rounds[m].at;
    }
  }

  lemma LaggingReadIsFresh(f: TimeFormat, s: Store, rounds: seq<Round>, i: nat, lag: nat)
    requires RoundTrips(f) && InOrder(rounds) && LongGrants(rounds, lag) && RoundSucceeds(f, rounds, i)
    requires CreatesAreTrue(f, s, rounds) && ReadsWithin(f, s, rounds, lag) && !Rotates(f, rounds[i])
    ensures ExpiresAfter(f, After(f, s, rounds[..i]), rounds[i].at + REFRESH_WINDOW)
  {
    assert ReadWithin(f, s, rounds, i, lag);
    var k :| ReadVersion(f, s, rounds, i, k) && (k == i || rounds[k].at >= rounds[i].at - lag);
    RecentlyStored(f, s, rounds, i, k, lag);
  }

  lemma StaleReadIsFresh(f: TimeFormat, s: Store, rounds: seq<Round>, i: nat)
    requires RoundTrips(f) && RoundSucceeds(f, rounds, i) && !Rotates(f, rounds[i])
    requires NoneExisted(rounds) && ReadsThePast(f, s, rounds) && LaterGrantsLast(f, s, rounds)
    ensures ExpiresAfter(f, After(f, s, rounds[..i]), rounds[i].at + REFRESH_WINDOW)
  {
    assert ReadPast(f, s, rounds, i);
    var k :| ReadVersion(f, s, rounds, i, k);
    NeverShortens(f, s, rounds, k, i, rounds[i].at + REFRESH_WINDOW);
  }

  lemma SuccessIsFresh(f: TimeFormat, s: Store, rounds: seq<Round>, i: nat, lag: nat)
    requires RoundTrips(f) && InOrder(rounds) && LongGrants(rounds, lag) && ReadsSuffice(f, s, rounds, lag)
    requires RoundSucceeds(f, rounds, i)
    ensures ExpiresAfter(f, After(f, s, rounds[..i + 1]), rounds[i].at + REFRESH_WINDOW)
  {
    AfterStep(f, s, rounds, i);
    if !Rotates(f, rounds[i]) {
      if CreatesAreTrue(f, s, rounds) && ReadsWithin(f, s, rounds, lag) {
        LaggingReadIsFresh(f, s, rounds, i, lag);
      } else {
        StaleReadIsFresh(f, s, rounds, i);
      }
    }
  }

  /** A later round, successful or not, never shortens the stored token's life below what
      an earlier success guaranteed. */
  lemma RoundKeepsFresh(f: TimeFormat, s: Store, r: Round, t: int)
    requires RoundTrips(f) && LongGrants([r], 0) && ExpiresAfter(f, s, t) && t <= r.at + REFRESH_WINDOW
    ensures ExpiresAfter(f, AfterRound(f, s, r), t)
  {
    assert [r][0] == r;
  }

  lemma {:induction false} FreshSince(f: TimeFormat, s: Store, rounds: seq<Round>, i: nat, n: nat, lag: nat)
    requires RoundTrips(f) && InOrder(rounds) && LongGrants(rounds, lag) && ReadsSuffice(f, s, rounds, lag)
    requires RoundSucceeds(f, rounds, i) && i < n <= |rounds|
    ensures ExpiresAfter(f, After(f, s, rounds[..n]), rounds[i].at + REFRESH_WINDOW)
    decreases n
  {
    if i == n - 1 {
      SuccessIsFresh(f, s, rounds, i, lag);
    } else {
      FreshSince(f, s, rounds, i, n - 1, lag);
      AfterStep(f, s, rounds, n - 1);
      RoundKeepsFresh(f, After(f, s, rounds[..n - 1]), rounds[n - 1], rounds[i].at + REFRESH_WINDOW);
    }
  }

  /** Tick `k` of a refresh that began at `start`. */
  function Tick(start: int, k: nat): int {
    start + k * REFRESH_PERIOD
  }

  /** Ticks are three hours apart. */
  lemma TickMeans(start: int, k: nat)
    ensures Tick(start, 0) == start && Tick(start, k + 1) == Tick(start, k) + 10800
  {
  }

  /** Every tick that is at least `delta` before the horizon led to a success within `delta`. */
  ghost predicate Refreshed(f: TimeFormat, rounds: seq<Round>, start: int, delta: int, horizon: int) {
    forall k: nat :: k >= 1 && Tick(start, k) + delta <= horizon ==> ServedTick(f, rounds, Tick(start, k), delta)
  }

  ghost predicate ServedTick(f: TimeFormat, rounds: seq<Round>, tick: int, delta: int) {
    exists i :: RoundSucceeds(f, rounds, i) && tick <= rounds[i].at <= tick + delta
  }

  /** Some success is recent: by the ticks, or the first one before any tick is due. */
  lemma RecentSuccess(f: TimeFormat, rounds: seq<Round>, start: int, delta: int, first: nat, now: int) returns (i: nat)
    requires delta >= 0 && InOrder(rounds) && RoundSucceeds(f, rounds, first) && start <= rounds[first].at <= now
    requires Refreshed(f, rounds, start, delta, now)
    ensures RoundSucceeds(f, rounds, i) && rounds[i].at <= now < rounds[i].at + REFRESH_PERIOD + delta
  {
    if now < rounds[first].at + REFRESH_PERIOD + delta {
      i := first;
    } else {
      var k: nat := (now - delta - start) / REFRESH_PERIOD;
      assert Tick(start, k) + delta <= now < Tick(start, k) + REFRESH_PERIOD + delta;
      assert k >= 1;
      assert ServedTick(f, rounds, Tick(start, k), delta);
      var j :| RoundSucceeds(f, rounds, j) && Tick(start, k) <= rounds[j].at <= Tick(start, k) + delta;
      i := j;
    }
  }

  /** Token freshness: if each three-hour tick leads to a successful reconcile within `delta`,
      then at every moment after the first success, whatever other rounds succeed or fail,
      the stored token has strictly more than one hour less `delta` left. Reads of the Secret
      may be up to `lag` behind, swallowed Creates included, with grants that outlive the
      refresh window by more than that; or arbitrarily far behind with grants whose
      expirations do not go backwards and no swallowed Create. `n` is the number of rounds
      up to that moment. */
  lemma TokenStaysFresh(f: TimeFormat, s: Store, rounds: seq<Round>, lag: nat, start: int, delta: int, first: nat,
                        now: int, n: nat)
    requires RoundTrips(f) && delta >= 0 && InOrder(rounds) && LongGrants(rounds, lag)
    requires ReadsSuffice(f, s, rounds, lag)
    requires RoundSucceeds(f, rounds, first) && start <= rounds[first].at <= now
    requires Refreshed(f, rounds, start, delta, now)
    requires n <= |rounds| && forall i :: 0 <= i < |rounds| ==> (i < n <==> rounds[i].at <= now)
    ensures ExpiresAfter(f, After(f, s, rounds[..n]), now + HOUR - delta)
  {
    var i := RecentSuccess(f, rounds, start, delta, first, now);
    FreshSince(f, s, rounds, i, n, lag);
  }

  // ----- the hypothesis on reads is needed -----

  /** A hundred-hour token is replaced by a twelve-hour one after a read that missed it, and
      ten hours later a read that still returns the first token counts as a success. */
  lemma StaleReadHidesExpiry(f: TimeFormat) returns (s: Store, rounds: seq<Round>)
    requires RoundTrips(f)
    ensures InOrder(rounds) && LongGrants(rounds, 0) && ReadsThePast(f, s, rounds) && NoneExisted(rounds)
    ensures RoundSucceeds(f, rounds, |rounds| - 1)
    ensures !ExpiresAfter(f, After(f, s, rounds), rounds[|rounds| - 1].at + REFRESH_WINDOW)
  {
    s := Store(None, None);
    var long := TokenSecret("a", Some(f.format(100 * HOUR)));
    var r0 := Round(0, NotFound, Some(Grant("a", 100 * HOUR)), Stored, Stored);
    var r1 := Round(0, NotFound, Some(Grant("b", 12 * HOUR)), Stored, Stored);
    var r2 := Round(10 * HOUR, Found(long), None, Stored, Stored);
    rounds := [r0, r1, r2];
    ThreeRounds(f, s, rounds);
    assert ReadVersion(f, s, rounds, 0, 0);
    assert ReadVersion(f, s, rounds, 1, 0);
    assert ReadVersion(f, s, rounds, 2, 1);
  }

  lemma ThreeRounds(f: TimeFormat, s: Store, rounds: seq<Round>)
    requires |rounds| == 3
    ensures After(f, s, rounds[..0]) == s
    ensures After(f, s, rounds[..1]) == AfterRound(f, s, rounds[0])
    ensures After(f, s, rounds[..2]) == AfterRound(f, After(f, s, rounds[..1]), rounds[1])
    ensures After(f, s, rounds) == AfterRound(f, After(f, s, rounds[..2]), rounds[2])
  {
    AfterStep(f, s, rounds, 0);
    AfterStep(f, s, rounds, 1);
    AfterStep(f, s, rounds, 2);
    assert rounds[..0] == [] && rounds[..3] == rounds;
  }

  lemma TwoRounds(f: TimeFormat, s: Store, rounds: seq<Round>)
    requires |rounds| == 2
    ensures After(f, s, rounds[..0]) == s
    ensures After(f, s, rounds[..1]) == AfterRound(f, s, rounds[0])
    ensures After(f, s, rounds) == AfterRound(f, After(f, s, rounds[..1]), rounds[1])
  {
    AfterStep(f, s, rounds, 0);
    AfterStep(f, s, rounds, 1);
    assert rounds[..0] == [] && rounds[..2] == rounds;
  }

  /** A swallowed Create after a read eleven hours behind counts as a success and leaves a
      token with an hour left. */
  lemma SwallowedCreateHidesExpiry(f: TimeFormat) returns (rounds: seq<Round>)
    requires RoundTrips(f)
    ensures var s := Store(None, None);
      && InOrder(rounds) && LongGrants(rounds, 0) && ReadsThePast(f, s, rounds) && CreatesAreTrue(f, s, rounds)
      && LaterGrantsLast(f, s, rounds) && RoundSucceeds(f, rounds, |rounds| - 1)
      && !ExpiresAfter(f, After(f, s, rounds), rounds[|rounds| - 1].at + REFRESH_WINDOW)
  {
    var s := Store(None, None);
    var r0 := Round(0, NotFound, Some(Grant("a", 12 * HOUR)), Stored, Stored);
    var r1 := Round(11 * HOUR, NotFound, Some(Grant("b", 23 * HOUR)), Existed, Stored);
    rounds := [r0, r1];
    TwoRounds(f, s, rounds);
    assert ReadVersion(f, s, rounds, 0, 0);
    assert ReadVersion(f, s, rounds, 1, 0);
  }

  // ----- the pods and the Secret -----

  /** The pod template carries another expiration than the Secret. */
  predicate Lags(s: Store) {
    s.secret.Some? && s.podExpiration != s.secret.value.expiration
  }

  /** The round wrote the Secret or the pod template. */
  predicate Writes(f: TimeFormat, r: Round) {
    Rotates(f, r) || Stamps(f, r)
  }

  /** Why a round that writes can leave the two different: it rotated to another expiration
      and did not stamp it, or it stamped an expiration other than the stored one, which it
      had from an older version of the Secret or from a grant that was not stored. */
  predicate LeavesLag(f: TimeFormat, s: Store, r: Round)
    requires Writes(f, r)
  {
    if Rotates(f, r) then !Stamps(f, r) && s.podExpiration != Some(f.format(r.grant.value.expires))
    else s.secret.Some? && s.secret.value.expiration != Expiration(f, r)
  }

  /** Exactly when the two differ after a round. From a store where they agree, by a read of
      the stored Secret and applies that store or fail: exactly when the round rotated to
      another expiration and the Deployment was not applied. */
  lemma PodsLagIff(f: TimeFormat, s: Store, r: Round)
    ensures Lags(AfterRound(f, s, r)) <==> if Writes(f, r) then LeavesLag(f, s, r) else Lags(s)
    ensures !Lags(s) && r.secret != Existed && (Keeps(f, r) ==> s.secret == Some(r.seen.value)) ==>
      (Lags(AfterRound(f, s, r)) <==>
        Rotates(f, r) && r.deployment != Stored && s.podExpiration != Some(f.format(r.grant.value.expires)))
  {
  }

  /** Round `i` is the last one that wrote anything. */
  predicate LastWrite(f: TimeFormat, rounds: seq<Round>, i: int) {
    0 <= i < |rounds| && Writes(f, rounds[i]) && forall k :: i < k < |rounds| ==> !Writes(f, rounds[k])
  }

  ghost predicate LagLeft(f: TimeFormat, s: Store, rounds: seq<Round>) {
    exists i :: LastWrite(f, rounds, i) && LeavesLag(f, After(f, s, rounds[..i]), rounds[i])
  }

  predicate NoneWrites(f: TimeFormat, rounds: seq<Round>) {
    forall k :: 0 <= k < |rounds| ==> !Writes(f, rounds[k])
  }

  lemma LagLeftStep(f: TimeFormat, s: Store, rounds: seq<Round>, n: nat)
    requires |rounds| == n + 1
    ensures Writes(f, rounds[n]) ==> (LagLeft(f, s, rounds) <==> LeavesLag(f, After(f, s, rounds[..n]), rounds[n]))
    ensures !Writes(f, rounds[n]) ==> (LagLeft(f, s, rounds) <==> LagLeft(f, s, rounds[..n]))
    ensures NoneWrites(f, rounds) <==> NoneWrites(f, rounds[..n]) && !Writes(f, rounds[n])
  {
    var front := rounds[..n];
    if Writes(f, rounds[n]) {
      assert LastWrite(f, rounds, n);
      assert forall i :: LastWrite(f, rounds, i) ==> i == n;
    } else {
      forall i ensures LastWrite(f, rounds, i) <==> LastWrite(f, front, i) {
        if LastWrite(f, front, i) {
          assert forall k :: i < k < n ==> !Writes(f, front[k]) && rounds[k] == front[k];
        }
      }
      assert forall i :: 0 <= i < n ==> front[i] == rounds[i] && front[..i] == rounds[..i];
    }
    assert forall i :: 0 <= i < n ==> front[i] == rounds[i];
  }

  /** Over every history, stale reads, swallowed Creates and failures included: pods and
      Secret differ exactly when the last round that wrote anything left them so, or none
      wrote and they already did. */
  lemma {:induction false} PodsLagOverHistory(f: TimeFormat, s: Store, rounds: seq<Round>)
    ensures Lags(After(f, s, rounds)) <==> LagLeft(f, s, rounds) || (NoneWrites(f, rounds) && Lags(s))
  {
    if rounds != [] {
      var n := |rounds| - 1;
      PodsLagOverHistory(f, s, rounds[..n]);
      LagLeftStep(f, s, rounds, n);
      PodsLagIff(f, After(f, s, rounds[..n]), rounds[n]);
    }
  }

  /** Exactly when a success leaves the pod template with the Secret's expiration. It does,
      after any history of failures, if its applies stored what they were given and the
      token it kept, if it kept one, is the stored one; a kept token is not rotated. */
  lemma PodsFollowToken(f: TimeFormat, s: Store, rounds: seq<Round>, i: nat)
    requires RoundSucceeds(f, rounds, i)
    ensures var r, before, after := rounds[i], After(f, s, rounds[..i]), After(f, s, rounds[..i + 1]);
      && (!Lags(after) <==> if Writes(f, r) then !LeavesLag(f, before, r) else !Lags(before))
      && (r.secret == Stored && r.deployment == Stored && (Keeps(f, r) ==> before.secret == Some(r.seen.value)) ==>
            after.secret.Some? && after.podExpiration == after.secret.value.expiration)
      && (Keeps(f, r) ==> after.secret == before.secret)
  {
    AfterStep(f, s, rounds, i);
    PodsLagIff(f, After(f, s, rounds[..i]), rounds[i]);
  }

  /** A failed Deployment apply leaves the pods behind the Secret. */
  lemma PodsCanLag(f: TimeFormat) returns (s: Store, r: Round)
    requires RoundTrips(f)
    ensures !Lags(s) && Lags(AfterRound(f, s, r))
  {
    s := Store(None, None);
    r := Round(0, NotFound, Some(Grant("t", 12 * HOUR)), Stored, Errored);
  }

  /** So does a success. A second reconcile within a second of the first misses the Secret
      that the first one stored, both in its own read and in that of `Apply`; Create finds it
      there, the new grant is dropped, and its expiration is stamped on the pods. */
  lemma SwallowedCreateLags(f: TimeFormat) returns (rounds: seq<Round>)
    requires RoundTrips(f)
    ensures var s := Store(None, None);
      && InOrder(rounds) && ReadsWithin(f, s, rounds, 1) && CreatesAreTrue(f, s, rounds)
      && (forall i :: 0 <= i < |rounds| ==> RoundSucceeds(f, rounds, i))
      && Lags(After(f, s, rounds))
  {
    var s := Store(None, None);
    var r0 := Round(0, NotFound, Some(Grant("a", 12 * HOUR)), Stored, Stored);
    var r1 := Round(1, NotFound, Some(Grant("b", 12 * HOUR + 1)), Existed, Stored);
    rounds := [r0, r1];
    TwoRounds(f, s, rounds);
    assert ReadVersion(f, s, rounds, 0, 0);
    assert ReadVersion(f, s, rounds, 1, 0);
    assert f.parse(f.format(12 * HOUR)) != f.parse(f.format(12 * HOUR + 1));
  }
}
