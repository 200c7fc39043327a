/** Refreshing one tenant's tokens as a state machine: any number of provider
    instances, each with its cache and single-flight lock, any number of concurrent
    calls, and the tenant row with its row lock. The server accepts only the refresh
    token it issued last and answers with new ones. */
module TokenProtocol {
  import opened Wrappers
  import opened TokenProvider

  type ProviderId = nat
  type CallId = nat

  datatype Stage =
    // get reads the cache; invalidate clears it; both may then queue for the lock.
    | Reading
    | Clearing
    | Queued
    | Locked
    | Refreshing(checkedAt: Time)
    | RowHeld(checkedAt: Time, presented: RefreshToken)
    | GrantedStage(checkedAt: Time, presented: RefreshToken, access: AccessToken, refresh: RefreshToken,
                   expiresIn: int)
    | Committed(access: AccessToken, expiresIn: int)
    | Answered(token: AccessToken)

  /** `seen`: for an invalidate, the tokens handed out before it cleared the cache. */
  datatype Call = Call(provider: ProviderId, stage: Stage, seen: Option<set<AccessToken>>)

  datatype Provider = Provider(cached: Option<Cached>, holder: Option<CallId>, margin: Time)

  datatype Sys = Sys(
    providers: map<ProviderId, Provider>,
    calls: map<CallId, Call>,
    // The tenant row's refresh token and its row lock.
    row: RefreshToken,
    rowHolder: Option<CallId>,
    // The server: the token it will accept, and the next tokens it will issue.
    current: RefreshToken,
    nextRefresh: RefreshToken,
    nextAccess: AccessToken,
    // Auxiliary: access tokens returned to a caller, refresh tokens redeemed, and
    // whether a rotation was ever lost before it was stored.
    handed: set<AccessToken>,
    redeemed: set<RefreshToken>,
    lost: bool)

  datatype Step =
    | NewProvider(provider: ProviderId, margin: Time)
    | StartGet(call: CallId, provider: ProviderId)
    | StartInvalidate(call: CallId, provider: ProviderId)
    | ReadCache(call: CallId, now: Time)
    | Clear(call: CallId)
    | TakeLock(call: CallId)
    | Recheck(call: CallId, now: Time)
    | LockRow(call: CallId)
    | Redeem(call: CallId, expiresIn: int)
    // The server rotated, but its answer was lost or could not be read.
    | RedeemUnheard(call: CallId)
    | CommitRow(call: CallId)
    | FillCache(call: CallId, now: Time)
    // An error, a failed commit, a cancelled future or a crash.
    | Drop(call: CallId)

  /** The tenant starts with the first token its operator obtained. */
  const Start := Sys(map[], map[], 0, None, 0, 1, 0, {}, {}, false)

  predicate At(s: Sys, c: CallId) {
    c in s.calls && s.calls[c].provider in s.providers
  }

  predicate Enabled(s: Sys, step: Step) {
    match step
    case NewProvider(p, _) => p !in s.providers
    case StartGet(c, p) => c !in s.calls && p in s.providers
    case StartInvalidate(c, p) => c !in s.calls && p in s.providers
    case ReadCache(c, _) => At(s, c) && s.calls[c].stage.Reading?
    case Clear(c) => At(s, c) && s.calls[c].stage.Clearing?
    case TakeLock(c) => At(s, c) && s.calls[c].stage.Queued? && s.providers[s.calls[c].provider].holder.None?
    case Recheck(c, _) => At(s, c) && s.calls[c].stage.Locked?
    case LockRow(c) => At(s, c) && s.calls[c].stage.Refreshing? && s.rowHolder.None?
    case Redeem(c, _) => At(s, c) && s.calls[c].stage.RowHeld? && s.calls[c].stage.presented == s.current
    case RedeemUnheard(c) => At(s, c) && s.calls[c].stage.RowHeld? && s.calls[c].stage.presented == s.current
    case CommitRow(c) => At(s, c) && s.calls[c].stage.GrantedStage?
    case FillCache(c, _) => At(s, c) && s.calls[c].stage.Committed?
    case Drop(c) => At(s, c) && !s.calls[c].stage.Answered?
  }

  function Moved(s: Sys, c: CallId, stage: Stage): map<CallId, Call>
    requires c in s.calls
  {
    s.calls[c := s.calls[c].(stage := stage)]
  }

  function Unlocked(s: Sys, c: CallId): map<ProviderId, Provider>
    requires At(s, c)
  {
    var p := s.calls[c].provider;
    if s.providers[p].holder == Some(c) then s.providers[p := s.providers[p].(holder := None)] else s.providers
  }

  function RowFreed(s: Sys, c: CallId): Option<CallId> {
    if s.rowHolder == Some(c) then None else s.rowHolder
  }

  function Apply(s: Sys, step: Step): Sys
    requires Enabled(s, step)
  {
    match step
    case NewProvider(p, margin) => s.(providers := s.providers[p := Provider(None, None, margin)])
    case StartGet(c, p) => s.(calls := s.calls[c := Call(p, Reading, None)])
    case StartInvalidate(c, p) => s.(calls := s.calls[c := Call(p, Clearing, None)])
    case ReadCache(c, now) =>
      var q := s.providers[s.calls[c].provider];
      if IsFresh(q.cached, now, q.margin) then
        s.(calls := Moved(s, c, Answered(q.cached.value.access)), handed := s.handed + {q.cached.value.access})
      else
        s.(calls := Moved(s, c, Queued))
    case Clear(c) =>
      var p := s.calls[c].provider;
      s.(providers := s.providers[p := s.providers[p].(cached := None)],
         calls := s.calls[c := Call(p, Queued, Some(s.handed))])
    case TakeLock(c) =>
      var p := s.calls[c].provider;
      s.(providers := s.providers[p := s.providers[p].(holder := Some(c))], calls := Moved(s, c, Locked))
    case Recheck(c, now) =>
      var q := s.providers[s.calls[c].provider];
      if IsFresh(q.cached, now, q.margin) then
        s.(providers := Unlocked(s, c), calls := Moved(s, c, Answered(q.cached.value.access)),
           handed := s.handed + {q.cached.value.access})
      else
        s.(calls := Moved(s, c, Refreshing(now)))
    case LockRow(c) =>
      s.(rowHolder := Some(c), calls := Moved(s, c, RowHeld(s.calls[c].stage.checkedAt, s.row)))
    case Redeem(c, expiresIn) =>
      var x := s.calls[c].stage;
      s.(calls := Moved(s, c, GrantedStage(x.checkedAt, x.presented, s.nextAccess, s.nextRefresh, expiresIn)),
         redeemed := s.redeemed + {s.current}, current := s.nextRefresh,
         nextRefresh := s.nextRefresh + 1, nextAccess := s.nextAccess + 1)
    case RedeemUnheard(c) =>
      s.(calls := s.calls - {c}, providers := Unlocked(s, c), rowHolder := RowFreed(s, c),
         redeemed := s.redeemed + {s.current}, current := s.nextRefresh,
         nextRefresh := s.nextRefresh + 1, nextAccess := s.nextAccess + 1, lost := true)
    case CommitRow(c) =>
      var x := s.calls[c].stage;
      s.(row := x.refresh, rowHolder := RowFreed(s, c), calls := Moved(s, c, Committed(x.access, x.expiresIn)))
    case FillCache(c, now) =>
      var p := s.calls[c].provider;
      var x := s.calls[c].stage;
      s.(providers := s.providers[p := s.providers[p].(cached := Some(Cached(x.access, now + x.expiresIn)),
                                                       holder := None)],
         calls := Moved(s, c, Answered(x.access)), handed := s.handed + {x.access})
    case Drop(c) =>
      s.(calls := s.calls - {c}, providers := Unlocked(s, c), rowHolder := RowFreed(s, c),
         lost := s.lost || s.calls[c].stage.GrantedStage?)
  }

  ghost predicate Next(s: Sys, step: Step, s': Sys) {
    Enabled(s, step) && s' == Apply(s, step)
  }

  ghost predicate Run(states: seq<Sys>, steps: seq<Step>) {
    && |states| == |steps| + 1
    && states[0] == Start
    && forall k :: 0 <= k < |steps| ==> Next(states[k], steps[k], states[k + 1])
  }

  // ---- What every interleaving keeps ----

  predicate PastLock(stage: Stage) {
    stage.Locked? || stage.Refreshing? || stage.RowHeld? || stage.GrantedStage? || stage.Committed?
  }

  predicate HoldsRow(stage: Stage) {
    stage.RowHeld? || stage.GrantedStage?
  }

  predicate InFlight(stage: Stage) {
    stage.GrantedStage? || stage.Committed?
  }

  /** One call at most holds each lock, and exactly while its stage says so. */
  ghost predicate Locks(s: Sys) {
    && (forall c :: c in s.calls ==> s.calls[c].provider in s.providers)
    && (forall c :: c in s.calls && PastLock(s.calls[c].stage) ==>
                 s.providers[s.calls[c].provider].holder == Some(c))
    && (forall c :: c in s.calls && HoldsRow(s.calls[c].stage) ==> s.rowHolder == Some(c))
  }

  /** A granted token is not handed out before it is cached. */
  ghost predicate InFlightUnseen(s: Sys) {
    && (forall t :: t in s.handed ==> t < s.nextAccess)
    && (forall c :: c in s.calls && InFlight(s.calls[c].stage) ==>
                 s.calls[c].stage.access < s.nextAccess && s.calls[c].stage.access !in s.handed)
    && (forall c, d :: c in s.calls && d in s.calls && c != d
                       && InFlight(s.calls[c].stage) && InFlight(s.calls[d].stage)
                 ==> s.calls[c].stage.access != s.calls[d].stage.access)
  }

  ghost predicate CachedHanded(s: Sys) {
    forall p :: p in s.providers && s.providers[p].cached.Some? ==> s.providers[p].cached.value.access in s.handed
  }

  ghost predicate Tokens(s: Sys) {
    InFlightUnseen(s) && CachedHanded(s)
  }

  ghost predicate SeenOk(s: Sys, x: Call) {
    x.seen.Some? ==>
      && x.seen.value <= s.handed
      && (x.stage.Answered? ==> x.stage.token !in x.seen.value)
      && ((!x.stage.Answered? && x.provider in s.providers && s.providers[x.provider].cached.Some?) ==>
            s.providers[x.provider].cached.value.access !in x.seen.value)
  }

  ghost predicate Seen(s: Sys) {
    && (forall c :: c in s.calls ==> SeenOk(s, s.calls[c]))
    && (forall c :: c in s.calls && (s.calls[c].stage.Reading? || s.calls[c].stage.Clearing?) ==>
                 s.calls[c].seen.None?)
  }

  /** A call that goes on to a grant has seen nothing usable in the cache. */
  ghost predicate Stale(s: Sys) {
    forall c :: c in s.calls && (s.calls[c].stage.Refreshing? || HoldsRow(s.calls[c].stage))
                && s.calls[c].provider in s.providers ==>
      !IsFresh(s.providers[s.calls[c].provider].cached, s.calls[c].stage.checkedAt,
               s.providers[s.calls[c].provider].margin)
  }

  /** The holder of the row lock has been granted tokens it has not stored yet. */
  predicate GrantOpen(s: Sys) {
    s.rowHolder.Some? && s.rowHolder.value in s.calls && s.calls[s.rowHolder.value].stage.GrantedStage?
  }

  /** The stored token is the one the server accepts, until a rotation is lost. */
  ghost predicate Rotation(s: Sys) {
    && s.current < s.nextRefresh && s.current !in s.redeemed
    && (forall t :: t in s.redeemed ==> t < s.nextRefresh)
    && (s.row == s.current || s.row in s.redeemed)
    && (forall c :: c in s.calls && HoldsRow(s.calls[c].stage) ==> s.calls[c].stage.presented == s.row)
    && (forall c :: c in s.calls && s.calls[c].stage.GrantedStage? ==>
                 !s.lost && s.calls[c].stage.refresh == s.current && s.row in s.redeemed)
    && (s.lost ==> s.row in s.redeemed)
    && (!GrantOpen(s) && !s.lost ==> s.row == s.current)
  }

  ghost predicate Inv(s: Sys) {
    Locks(s) && Tokens(s) && Seen(s) && Stale(s) && Rotation(s)
  }

  // ---- What a step does to one call ----

  lemma CallEffect(s: Sys, step: Step, c: CallId)
    requires Enabled(s, step) && c in Apply(s, step).calls
    ensures var x := Apply(s, step).calls[c];
            || (c in s.calls && x == s.calls[c] && (step.NewProvider? || step.call != c))
            || (!step.NewProvider? && step.call == c
                && (step.StartGet? || step.StartInvalidate? ==> x.seen.None? && (x.stage.Reading? || x.stage.Clearing?))
                && (!step.StartGet? && !step.StartInvalidate? ==>
                      c in s.calls && x.provider == s.calls[c].provider
                      && (!step.Clear? ==> x.seen == s.calls[c].seen)))
  {
  }

  lemma LockKept(s: Sys, step: Step, c: CallId)
    requires Locks(s) && Enabled(s, step) && c in Apply(s, step).calls
    ensures var s' := Apply(s, step);
            && s'.calls[c].provider in s'.providers
            && (PastLock(s'.calls[c].stage) ==> s'.providers[s'.calls[c].provider].holder == Some(c))
            && (HoldsRow(s'.calls[c].stage) ==> s'.rowHolder == Some(c))
  {
  }

  lemma LocksKept(s: Sys, step: Step)
    requires Locks(s) && Enabled(s, step)
    ensures Locks(Apply(s, step))
  {
    forall c | c in Apply(s, step).calls
      ensures var s' := Apply(s, step);
              && s'.calls[c].provider in s'.providers
              && (PastLock(s'.calls[c].stage) ==> s'.providers[s'.calls[c].provider].holder == Some(c))
              && (HoldsRow(s'.calls[c].stage) ==> s'.rowHolder == Some(c))
    {
      LockKept(s, step, c);
    }
    hide Enabled, Apply, PastLock, HoldsRow;
  }

  lemma CachedHandedKept(s: Sys, step: Step)
    requires CachedHanded(s) && Enabled(s, step)
    ensures CachedHanded(Apply(s, step))
  {
  }

  /** New hand-outs come from a cache or from the call that was granted the token. */
  lemma HandedEffect(s: Sys, step: Step)
    requires CachedHanded(s) && Enabled(s, step)
    ensures var s' := Apply(s, step);
            && s.nextAccess <= s'.nextAccess
            && forall t :: t in s'.handed ==>
                 t in s.handed
                 || (step.FillCache? && step.call in s.calls && s.calls[step.call].stage.Committed?
                     && t == s.calls[step.call].stage.access)
  {
  }

  lemma InFlightEffect(s: Sys, step: Step, c: CallId)
    requires Enabled(s, step) && c in Apply(s, step).calls && InFlight(Apply(s, step).calls[c].stage)
    ensures var s' := Apply(s, step);
            || (c in s.calls && InFlight(s.calls[c].stage)
                && s'.calls[c].stage.access == s.calls[c].stage.access && !(step.FillCache? && step.call == c))
            || (step.Redeem? && step.call == c && s'.calls[c].stage.access == s.nextAccess < s'.nextAccess)
  {
  }

  lemma TokensKept(s: Sys, step: Step)
    requires Tokens(s) && Enabled(s, step)
    ensures Tokens(Apply(s, step))
  {
    hide Enabled, Apply, CachedHanded;
    CachedHandedKept(s, step);
    HandedEffect(s, step);
    forall c | c in Apply(s, step).calls && InFlight(Apply(s, step).calls[c].stage)
      ensures (c in s.calls && InFlight(s.calls[c].stage)
               && Apply(s, step).calls[c].stage.access == s.calls[c].stage.access
               && !(step.FillCache? && step.call == c))
              || (step.Redeem? && step.call == c
                  && Apply(s, step).calls[c].stage.access == s.nextAccess < Apply(s, step).nextAccess)
    {
      InFlightEffect(s, step, c);
    }
  }

  lemma StaleKept(s: Sys, step: Step)
    requires Locks(s) && Stale(s) && Enabled(s, step)
    ensures Stale(Apply(s, step))
  {
  }

  lemma SeenOkKept(s: Sys, step: Step, c: CallId)
    requires Locks(s) && Tokens(s) && Seen(s) && Enabled(s, step) && c in Apply(s, step).calls
    ensures SeenOk(Apply(s, step), Apply(s, step).calls[c])
  {
    CallEffect(s, step, c);
    if c in s.calls {
      assert SeenOk(s, s.calls[c]);
    }
  }

  lemma SeenKept(s: Sys, step: Step)
    requires Locks(s) && Tokens(s) && Seen(s) && Enabled(s, step)
    ensures Seen(Apply(s, step))
  {
    hide Locks, Tokens, SeenOk, IsFresh;
    forall c | c in Apply(s, step).calls ensures SeenOk(Apply(s, step), Apply(s, step).calls[c]) {
      SeenOkKept(s, step, c);
    }
  }

  lemma RotationKept(s: Sys, step: Step)
    requires Locks(s) && Rotation(s) && Enabled(s, step)
    ensures Rotation(Apply(s, step))
  {
    hide IsFresh;
  }

  // ---- Every reachable state ----

  lemma InvKept(s: Sys, step: Step, s': Sys)
    requires Inv(s) && Next(s, step, s')
    ensures Inv(s')
  {
    hide Locks, Tokens, Seen, Stale, Rotation, Apply, Enabled;
    LocksKept(s, step);
    TokensKept(s, step);
    SeenKept(s, step);
    StaleKept(s, step);
    RotationKept(s, step);
  }

  lemma InvInitially()
    ensures Inv(Start)
  {
  }

  lemma {:induction false} InvHolds(states: seq<Sys>, steps: seq<Step>, n: nat)
    requires Run(states, steps) && n <= |steps|
    ensures Inv(states[n])
  {
    hide Inv, Next;
    if n == 0 {
      InvInitially();
    } else {
      InvHolds(states, steps, n - 1);
      assert Next(states[n - 1], steps[n - 1], states[n - 1 + 1]);
      InvKept(states[n - 1], steps[n - 1], states[n]);
    }
  }
}
