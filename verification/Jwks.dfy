/** The JWKS cache: keys served stale, refreshes spaced by a cooldown. */
module Jwks {
  import opened Wrappers
  import opened Undisturbed

  type Kid = string
  type Jwk = string
  type Keys = map<Kid, Jwk>
  /** Seconds on a monotonic clock. */
  type Time = int

  const TTL := 600
  const COOLDOWN := 30
  const HTTP_TIMEOUT := 10

  datatype JwksError = Unavailable | UnknownKid

  predicate Due(lastAttempt: Option<Time>, now: Time) {
    lastAttempt.None? || now - lastAttempt.value >= COOLDOWN
  }

  predicate IsStale(fetchedAt: Option<Time>, now: Time) {
    fetchedAt.None? || now - fetchedAt.value >= TTL
  }

  class JwksCache {
    var keys: Keys
    var fetchedAt: Option<Time>
    var lastAttempt: Option<Time>

    constructor ()
      ensures keys == map[] && fetchedAt == None && lastAttempt == None
    {
      keys, fetchedAt, lastAttempt := map[], None, None;
    }

    method ReadKid(kid: Kid, now: Time) returns (r: Option<(Jwk, bool)>)
      ensures r == if kid in keys then Some((keys[kid], fetchedAt.None? || now - fetchedAt.value >= 600)) else None
    {
      if kid !in keys {
        return None;
      }
      r := Some((keys[kid], fetchedAt.None? || now - fetchedAt.value >= TTL));
    }

    /** Claims the cooldown slot, then fetches; a failed fetch keeps the keys. */
    method RefreshIfDue(now: Time, fetched: Option<Keys>, doneAt: Time)
      modifies this
      ensures lastAttempt == if Due(old(lastAttempt), now) then Some(now) else old(lastAttempt)
      ensures if Due(old(lastAttempt), now) && fetched.Some?
              then keys == fetched.value && fetchedAt == Some(doneAt)
              else keys == old(keys) && fetchedAt == old(fetchedAt)
      // An attempt is made exactly when there was none in the last 30 seconds.
      ensures if old(lastAttempt).None? || now - old(lastAttempt).value >= 30 then
                && lastAttempt == Some(now)
                && (fetched.Some? ==> keys == fetched.value && fetchedAt == Some(doneAt))
                && (fetched.None? ==> keys == old(keys) && fetchedAt == old(fetchedAt))
              else
                lastAttempt == old(lastAttempt) && keys == old(keys) && fetchedAt == old(fetchedAt)
    {
      if lastAttempt.Some? && now - lastAttempt.value < COOLDOWN {
        return;
      }
      lastAttempt := Some(now);
      match fetched
      case Some(k) =>
        keys := k;
        fetchedAt := Some(doneAt);
      case None =>
    }

    /** A cached key is served, even when stale and even when its refresh fails; an
        unknown one is looked up again after at most one refresh. */
    method JwkForKid(kid: Kid, now: Time, fetched: Option<Keys>, doneAt: Time) returns (r: Result<Jwk, JwksError>)
      modifies this
      ensures kid in old(keys) ==> r == Ok(old(keys)[kid])
      ensures kid !in old(keys) && Due(old(lastAttempt), now) && fetched.Some? && kid in fetched.value ==>
                r == Ok(fetched.value[kid])
      ensures r.Err? <==> kid !in old(keys) && kid !in keys
      ensures r == Err(Unavailable) ==> keys == map[]
      ensures r == Err(UnknownKid) ==> keys != map[]
      ensures var tries := (kid !in old(keys) || IsStale(old(fetchedAt), now)) && Due(old(lastAttempt), now);
              && lastAttempt == (if tries then Some(now) else old(lastAttempt))
              && keys == (if tries && fetched.Some? then fetched.value else old(keys))
              && fetchedAt == (if tries && fetched.Some? then Some(doneAt) else old(fetchedAt))
      // In numbers: a miss, or a hit on keys fetched 600 seconds ago or more, attempts a
      // fetch exactly when the last attempt is 30 seconds ago or more.
      ensures var tries := (kid !in old(keys) || old(fetchedAt).None? || now - old(fetchedAt).value >= 600)
                           && (old(lastAttempt).None? || now - old(lastAttempt).value >= 30);
              && lastAttempt == (if tries then Some(now) else old(lastAttempt))
              && keys == (if tries && fetched.Some? then fetched.value else old(keys))
              && (kid !in old(keys) && tries && fetched.Some? && kid in fetched.value ==> r == Ok(fetched.value[kid]))
              && (kid !in old(keys) && !(tries && fetched.Some? && kid in fetched.value) ==> r.Err?)
    {
      var hit := ReadKid(kid, now);
      if hit.Some? {
        if hit.value.1 {
          RefreshIfDue(now, fetched, doneAt);
        }
        return Ok(hit.value.0);
      }
      RefreshIfDue(now, fetched, doneAt);
      var again := ReadKid(kid, now);
      if again.Some? {
        return Ok(again.value.0);
      }
      r := Err(if keys == map[] then Unavailable else UnknownKid);
    }
  }

  // ---- Concurrent lookups ----

  type FetchId = nat

  datatype Fetch = Fetch(started: Time, keys: Keys)

  datatype Sys = Sys(
    clock: Time,
    keys: Keys,
    lastAttempt: Option<Time>,
    // Fetches under way, by their start.
    open: map<FetchId, Time>,
    // Auxiliary: when each attempt started, in order, and the fetches that succeeded.
    attempts: seq<Time>,
    successes: seq<Fetch>)

  /** The clock moves on only while every open fetch is within its timeout. */
  datatype Step =
    | Tick(now: Time)
    | Claim(f: FetchId)
    | Succeed(f: FetchId, keys: Keys)
    // A failed, timed-out or cancelled fetch.
    | GiveUp(f: FetchId)

  const Empty := Sys(0, map[], None, map[], [], [])

  predicate Enabled(s: Sys, step: Step) {
    match step
    case Tick(now) => s.clock <= now && forall f :: f in s.open ==> now - s.open[f] <= HTTP_TIMEOUT
    case Claim(f) => f !in s.open && Due(s.lastAttempt, s.clock)
    case Succeed(f, _) => f in s.open
    case GiveUp(f) => f in s.open
  }

  function Apply(s: Sys, step: Step): Sys
    requires Enabled(s, step)
  {
    match step
    case Tick(now) => s.(clock := now)
    case Claim(f) =>
      s.(lastAttempt := Some(s.clock), open := s.open[f := s.clock], attempts := s.attempts + [s.clock])
    case Succeed(f, keys) =>
      s.(keys := keys, open := s.open - {f}, successes := s.successes + [Fetch(s.open[f], keys)])
    case GiveUp(f) => s.(open := s.open - {f})
  }

  ghost predicate Next(s: Sys, step: Step, s': Sys) {
    Enabled(s, step) && s' == Apply(s, step)
  }

  ghost predicate Run(states: seq<Sys>, steps: seq<Step>) {
    && |states| == |steps| + 1
    && states[0] == Empty
    && forall k :: 0 <= k < |steps| ==> Next(states[k], steps[k], states[k + 1])
  }

  ghost predicate Spaced(attempts: seq<Time>) {
    forall i :: 0 <= i < |attempts| - 1 ==> attempts[i] + COOLDOWN <= attempts[i + 1]
  }

  ghost predicate Inv(s: Sys) {
    && Spaced(s.attempts)
    && (s.lastAttempt == if s.attempts == [] then None else Some(s.attempts[|s.attempts| - 1]))
    && (s.lastAttempt.Some? ==> s.lastAttempt.value <= s.clock)
    && (forall f :: f in s.open ==> s.lastAttempt == Some(s.open[f]) && s.clock - s.open[f] <= HTTP_TIMEOUT)
    && (forall f, g :: f in s.open && g in s.open ==> f == g)
    && (forall i, j :: 0 <= i < j < |s.successes| ==> s.successes[i].started < s.successes[j].started)
    && (forall i :: 0 <= i < |s.successes| ==> s.lastAttempt.Some? && s.successes[i].started <= s.lastAttempt.value)
    && (forall f, i :: f in s.open && 0 <= i < |s.successes| ==> s.successes[i].started < s.open[f])
    && (s.keys == if s.successes == [] then map[] else s.successes[|s.successes| - 1].keys)
  }

  lemma InvKept(s: Sys, step: Step, s': Sys)
    requires Inv(s) && Next(s, step, s')
    ensures Inv(s')
  {
  }

  lemma {:induction false} InvHolds(states: seq<Sys>, steps: seq<Step>, n: nat)
    requires Run(states, steps) && n <= |steps|
    ensures Inv(states[n])
  {
    if n > 0 {
      hide Inv, Next;
      InvHolds(states, steps, n - 1);
      assert Next(states[n - 1], steps[n - 1], states[n - 1 + 1]);
      InvKept(states[n - 1], steps[n - 1], states[n]);
    }
  }

  lemma {:induction false} SpacedSpan(attempts: seq<Time>, i: nat, j: nat)
    requires Spaced(attempts) && i <= j < |attempts|
    ensures attempts[j] - attempts[i] >= (j - i) * COOLDOWN
    decreases j
  {
    if i < j {
      SpacedSpan(attempts, i, j - 1);
      assert attempts[j - 1] + COOLDOWN <= attempts[j - 1 + 1];
    }
  }

  /** However many lookups race, n attempts span at least n - 1 cooldowns. */
  lemma AttemptsAreSpaced(states: seq<Sys>, steps: seq<Step>, n: nat, i: nat, j: nat)
    requires Run(states, steps) && n <= |steps| && i <= j < |states[n].attempts|
    ensures states[n].attempts[j] - states[n].attempts[i] >= (j - i) * 30
  {
    InvHolds(states, steps, n);
    SpacedSpan(states[n].attempts, i, j);
  }

  /** A lookup that needs keys starts a fetch exactly when none was attempted in the last
      30 seconds, whatever became of it. */
  lemma FetchIsClaimedExactlyAfterTheCooldown(states: seq<Sys>, steps: seq<Step>, n: nat, f: FetchId)
    requires Run(states, steps) && n <= |steps| && f !in states[n].open
    ensures var s := states[n];
            Enabled(s, Claim(f)) <==>
              s.attempts == [] || s.clock - s.attempts[|s.attempts| - 1] >= 30
  {
    InvHolds(states, steps, n);
  }

  /** Fetches never overlap, so the cached keys are those of the successful fetch
      that started last; nothing else changes them. */
  lemma CachedKeysAreTheLatest(states: seq<Sys>, steps: seq<Step>, n: nat)
    requires Run(states, steps) && n <= |steps|
    ensures var s := states[n];
            && (forall f, g :: f in s.open && g in s.open ==> f == g)
            && (s.successes == [] ==> s.keys == map[])
            && (s.successes != [] ==>
                  exists i :: 0 <= i < |s.successes| && s.keys == s.successes[i].keys
                              && forall j :: 0 <= j < |s.successes| ==> s.successes[j].started <= s.successes[i].started)
  {
    InvHolds(states, steps, n);
    var s := states[n];
    if s.successes != [] {
      var i := |s.successes| - 1;
      assert 0 <= i < |s.successes| && s.keys == s.successes[i].keys;
    }
  }

  /** A refresh that is due, undisturbed, does what the handler does. */
  lemma RefreshIsItsSteps(s: Sys, f: FetchId, fetched: Option<Keys>, doneAt: Time)
    requires s.open == map[] && Due(s.lastAttempt, s.clock) && s.clock <= doneAt <= s.clock + HTTP_TIMEOUT
    ensures Leads(Next, s, [Claim(f), Tick(doneAt), if fetched.Some? then Succeed(f, fetched.value) else GiveUp(f)],
                  s.(clock := doneAt, lastAttempt := Some(s.clock), attempts := s.attempts + [s.clock],
                     keys := if fetched.Some? then fetched.value else s.keys,
                     successes := if fetched.Some? then s.successes + [Fetch(s.clock, fetched.value)] else s.successes))
  {
    var a := Apply(s, Claim(f));
    var b := Apply(a, Tick(doneAt));
    var last := if fetched.Some? then Succeed(f, fetched.value) else GiveUp(f);
    assert b.open - {f} == s.open;
    LeadsByThree(Next, s, Claim(f), a, Tick(doneAt), b, last, Apply(b, last));
  }

  /** Undisturbed steps from the start are a run. */
  lemma UndisturbedStepsAreARun(steps: seq<Step>, s: Sys) returns (states: seq<Sys>)
    requires Leads(Next, Empty, steps, s)
    ensures Run(states, steps) && states[|steps|] == s
  {
    states := LeadsTakesItsSteps(Next, Empty, steps, s);
  }
}
