/** What every interleaving of get and invalidate, on any number of provider
    instances for one tenant, guarantees. */
module TokenTheorems {
  import opened Wrappers
  import opened TokenProvider
  import opened TokenProtocol
  import opened Undisturbed

  // ---- Invalidate ----

  lemma ClearRecords(s: Sys, step: Step, s': Sys)
    requires Next(s, step, s') && step.Clear?
    ensures step.call in s'.calls && s'.calls[step.call].seen == Some(s.handed)
  {
  }

  lemma SeenStays(s: Sys, step: Step, s': Sys, c: CallId)
    requires Inv(s) && Next(s, step, s') && c in s.calls && s.calls[c].seen.Some? && c in s'.calls
    ensures s'.calls[c].seen == s.calls[c].seen
  {
    hide Locks, Tokens, Stale, Rotation, IsFresh;
  }

  lemma {:induction false} SeenIsWhatWasHandedOut(states: seq<Sys>, steps: seq<Step>, i: nat, j: nat, c: CallId)
    requires Run(states, steps) && i < j <= |steps| && steps[i] == Clear(c)
    requires forall k :: i < k <= j ==> c in states[k].calls
    ensures states[j].calls[c].seen == Some(states[i].handed)
    decreases j
  {
    hide Inv, Next;
    assert Next(states[j - 1], steps[j - 1], states[j - 1 + 1]);
    if j == i + 1 {
      ClearRecords(states[i], steps[i], states[j]);
    } else {
      SeenIsWhatWasHandedOut(states, steps, i, j - 1, c);
      InvHolds(states, steps, j - 1);
      SeenStays(states[j - 1], steps[j - 1], states[j], c);
    }
  }

  /** The token an invalidate returns had not been returned to anybody when that
      call cleared the cache, however many calls raced with it. */
  lemma InvalidateReturnsAnUnseenToken(states: seq<Sys>, steps: seq<Step>, i: nat, j: nat, c: CallId)
    requires Run(states, steps) && i < j <= |steps| && steps[i] == Clear(c)
    requires forall k :: i < k <= j ==> c in states[k].calls
    requires states[j].calls[c].stage.Answered?
    ensures states[j].calls[c].stage.token !in states[i].handed
  {
    SeenIsWhatWasHandedOut(states, steps, i, j, c);
    InvHolds(states, steps, j);
    hide Locks, Tokens, Stale, Rotation;
    assert SeenOk(states[j], states[j].calls[c]);
  }

  // ---- Single flight ----

  /** One call per provider is past the single-flight lock, one call in all holds
      the tenant row. */
  lemma GrantsAreSerialised(states: seq<Sys>, steps: seq<Step>, n: nat, c: CallId, d: CallId)
    requires Run(states, steps) && n <= |steps| && c in states[n].calls && d in states[n].calls && c != d
    ensures var s := states[n];
            && (PastLock(s.calls[c].stage) && PastLock(s.calls[d].stage) ==> s.calls[c].provider != s.calls[d].provider)
            && !(HoldsRow(s.calls[c].stage) && HoldsRow(s.calls[d].stage))
  {
    InvHolds(states, steps, n);
    hide Tokens, Seen, Stale, Rotation;
  }

  /** The cache of `p` is emptied or refilled by this step. */
  predicate TouchesCache(s: Sys, step: Step, p: ProviderId) {
    (step.Clear? || step.FillCache?) && step.call in s.calls && s.calls[step.call].provider == p
  }

  lemma CacheStays(s: Sys, step: Step, s': Sys, p: ProviderId)
    requires Next(s, step, s') && p in s.providers && !TouchesCache(s, step, p)
    ensures p in s'.providers && s'.providers[p].cached == s.providers[p].cached
            && s'.providers[p].margin == s.providers[p].margin
  {
  }

  lemma {:induction false} CacheHeldBetween(states: seq<Sys>, steps: seq<Step>, i: nat, j: nat, p: ProviderId)
    requires Run(states, steps) && i <= j <= |steps| && p in states[i].providers
    requires forall k :: i <= k < j ==> !TouchesCache(states[k], steps[k], p)
    ensures p in states[j].providers && states[j].providers[p].cached == states[i].providers[p].cached
            && states[j].providers[p].margin == states[i].providers[p].margin
    decreases j
  {
    hide Next, TouchesCache;
    if i < j {
      CacheHeldBetween(states, steps, i, j - 1, p);
      assert Next(states[j - 1], steps[j - 1], states[j - 1 + 1]);
      CacheStays(states[j - 1], steps[j - 1], states[j], p);
    }
  }

  /** A provider that cached a token and whose cache was neither cleared nor refilled
      since is granted another only after a check, made under its lock, found that
      token within the safety margin of its expiry. */
  lemma AnotherGrantNeedsAReason(states: seq<Sys>, steps: seq<Step>, i: nat, j: nat, p: ProviderId)
    requires Run(states, steps) && i < j < |steps|
    requires p in states[i].providers && states[i].providers[p].cached.Some?
    requires forall k :: i <= k < j ==> !TouchesCache(states[k], steps[k], p)
    requires steps[j].Redeem? && steps[j].call in states[j].calls && states[j].calls[steps[j].call].provider == p
    ensures states[j].calls[steps[j].call].stage.RowHeld?
    ensures states[i].providers[p].cached.value.expiresAt - states[j].calls[steps[j].call].stage.checkedAt
            <= states[i].providers[p].margin
  {
    CacheHeldBetween(states, steps, i, j, p);
    InvHolds(states, steps, j);
    assert Next(states[j], steps[j], states[j + 1]);
    hide Locks, Tokens, Seen, Rotation;
  }

  // ---- Rotation ----

  lemma RowStays(s: Sys, step: Step, s': Sys)
    requires Next(s, step, s') && !step.CommitRow?
    ensures s'.row == s.row
  {
  }

  lemma {:induction false} RowHeldBetween(states: seq<Sys>, steps: seq<Step>, i: nat, j: nat)
    requires Run(states, steps) && i <= j <= |steps| && forall k :: i <= k < j ==> !steps[k].CommitRow?
    ensures states[j].row == states[i].row
    decreases j
  {
    hide Next;
    if i < j {
      RowHeldBetween(states, steps, i, j - 1);
      assert Next(states[j - 1], steps[j - 1], states[j - 1 + 1]);
      RowStays(states[j - 1], steps[j - 1], states[j]);
    }
  }

  /** Each grant presents the refresh token stored by the last committed one,
      whichever instance made it; a grant that fails stores nothing. */
  lemma GrantsPresentTheStoredToken(states: seq<Sys>, steps: seq<Step>, i: nat, j: nat)
    requires Run(states, steps) && i < j < |steps| && steps[i].CommitRow? && steps[j].Redeem?
    requires forall k :: i < k < j ==> !steps[k].CommitRow?
    ensures steps[i].call in states[i].calls && states[i].calls[steps[i].call].stage.GrantedStage?
    ensures steps[j].call in states[j].calls && states[j].calls[steps[j].call].stage.RowHeld?
    ensures states[j].calls[steps[j].call].stage.presented == states[i].calls[steps[i].call].stage.refresh
  {
    assert Next(states[i], steps[i], states[i + 1]);
    assert Next(states[j], steps[j], states[j + 1]);
    RowHeldBetween(states, steps, i + 1, j);
    InvHolds(states, steps, j);
    hide Locks, Tokens, Seen, Stale, IsFresh;
  }

  /** Between grants the stored token is the one the server accepts exactly as long
      as no rotation was lost on its way to the row. */
  lemma StoredTokenIsCurrentUnlessLost(states: seq<Sys>, steps: seq<Step>, n: nat)
    requires Run(states, steps) && n <= |steps| && !GrantOpen(states[n])
    ensures states[n].row == states[n].current <==> !states[n].lost
  {
    InvHolds(states, steps, n);
    hide Locks, Tokens, Seen, Stale;
  }

  lemma LostStays(s: Sys, step: Step, s': Sys)
    requires Next(s, step, s') && s.lost
    ensures s'.lost
  {
  }

  lemma {:induction false} LostForGood(states: seq<Sys>, steps: seq<Step>, i: nat, j: nat)
    requires Run(states, steps) && i <= j <= |steps| && states[i].lost
    ensures states[j].lost
    decreases j
  {
    hide Next;
    if i < j {
      LostForGood(states, steps, i, j - 1);
      assert Next(states[j - 1], steps[j - 1], states[j - 1 + 1]);
      LostStays(states[j - 1], steps[j - 1], states[j]);
    }
  }

  /** After a lost rotation the tenant never obtains a token again by itself. */
  lemma NoGrantAfterALostRotation(states: seq<Sys>, steps: seq<Step>, i: nat, j: nat)
    requires Run(states, steps) && i <= j < |steps| && states[i].lost
    ensures !steps[j].Redeem? && !steps[j].RedeemUnheard?
  {
    LostForGood(states, steps, i, j);
    InvHolds(states, steps, j);
    assert Next(states[j], steps[j], states[j + 1]);
    hide Locks, Tokens, Seen, Stale, IsFresh;
  }

  // ---- Presenting a token again ----

  /** The server's own counters: what it accepts is newer than all it has redeemed. */
  ghost predicate Newest(s: Sys) {
    s.current < s.nextRefresh && forall t :: t in s.redeemed ==> t < s.current
  }

  lemma NewestNext(s: Sys, step: Step, s': Sys)
    requires Newest(s) && Next(s, step, s')
    ensures Newest(s')
  {
    hide IsFresh;
  }

  lemma {:induction false} NewestHolds(states: seq<Sys>, steps: seq<Step>, n: nat)
    requires Run(states, steps) && n <= |steps|
    ensures Newest(states[n])
  {
    if n > 0 {
      hide Next, Newest;
      NewestHolds(states, steps, n - 1);
      assert Next(states[n - 1], steps[n - 1], states[n - 1 + 1]);
      NewestNext(states[n - 1], steps[n - 1], states[n]);
    }
  }

  /** Under the row lock a commit stores a token newer than the stored one. */
  lemma RowRises(s: Sys, step: Step, s': Sys)
    requires Rotation(s) && Newest(s) && Next(s, step, s')
    ensures s.row <= s'.row && (s.row < s'.row <==> step.CommitRow?)
  {
    hide IsFresh;
  }

  lemma {:induction false} RowRisesByCommits(states: seq<Sys>, steps: seq<Step>, i: nat, j: nat)
    requires Run(states, steps) && i <= j <= |steps|
    ensures states[i].row <= states[j].row
    ensures states[i].row == states[j].row <==> forall k :: i <= k < j ==> !steps[k].CommitRow?
    decreases j
  {
    hide Locks, Tokens, Seen, Stale, Rotation, Next, Newest;
    if i < j {
      RowRisesByCommits(states, steps, i, j - 1);
      InvHolds(states, steps, j - 1);
      NewestHolds(states, steps, j - 1);
      assert Next(states[j - 1], steps[j - 1], states[j - 1 + 1]);
      RowRises(states[j - 1], steps[j - 1], states[j]);
    }
  }

  lemma LockReads(s: Sys, step: Step, s': Sys)
    requires Next(s, step, s') && step.LockRow?
    ensures step.call in s'.calls && s'.calls[step.call].stage.RowHeld?
            && s'.calls[step.call].stage.presented == s.row && s'.row == s.row
  {
  }

  /** Two grants, of whichever instances and calls, go out with the same refresh token
      exactly when none in between has stored a new one: a grant that fails, is
      cancelled or is not committed leaves its token to be presented again. */
  lemma PresentedAgainExactlyUntilACommit(states: seq<Sys>, steps: seq<Step>, i: nat, j: nat)
    requires Run(states, steps) && i < j < |steps| && steps[i].LockRow? && steps[j].LockRow?
    ensures steps[i].call in states[i + 1].calls && states[i + 1].calls[steps[i].call].stage.RowHeld?
    ensures steps[j].call in states[j + 1].calls && states[j + 1].calls[steps[j].call].stage.RowHeld?
    ensures states[i + 1].calls[steps[i].call].stage.presented == states[j + 1].calls[steps[j].call].stage.presented
            <==> forall k :: i < k < j ==> !steps[k].CommitRow?
  {
    hide Next;
    assert Next(states[i], steps[i], states[i + 1]);
    assert Next(states[j], steps[j], states[j + 1]);
    LockReads(states[i], steps[i], states[i + 1]);
    LockReads(states[j], steps[j], states[j + 1]);
    RowRisesByCommits(states, steps, i + 1, j);
  }

  lemma Extend(states: seq<Sys>, steps: seq<Step>, step: Step) returns (states': seq<Sys>, steps': seq<Step>)
    requires Run(states, steps) && Enabled(states[|steps|], step)
    ensures steps' == steps + [step] && states' == states + [Apply(states[|steps|], step)]
    ensures Run(states', steps')
  {
    hide Apply, Enabled;
    states', steps' := states + [Apply(states[|steps|], step)], steps + [step];
    forall k | 0 <= k < |steps'| ensures Next(states'[k], steps'[k], states'[k + 1]) {
      if k < |steps| {
        assert Next(states[k], steps[k], states[k + 1]);
      }
    }
  }

  /** A get on provider 0 comes to the point where it has read the tenant row. */
  lemma GoLockRow(states: seq<Sys>, steps: seq<Step>, c: CallId) returns (states': seq<Sys>, steps': seq<Step>)
    requires Run(states, steps)
    requires var s := states[|steps|];
             c !in s.calls && s.rowHolder.None? && 0 in s.providers && s.providers[0] == Provider(None, None, 30)
    ensures Run(states', steps') && |steps'| == |steps| + 5 && steps'[|steps'| - 1] == LockRow(c)
    ensures states <= states' && steps <= steps'
    ensures var s, s' := states[|steps|], states'[|steps'|];
            s' == s.(calls := s.calls[c := Call(0, RowHeld(0, s.row), None)], rowHolder := Some(c),
                     providers := s.providers[0 := Provider(None, Some(c), 30)])
  {
    states', steps' := Extend(states, steps, StartGet(c, 0));
    states', steps' := Extend(states', steps', ReadCache(c, 0));
    states', steps' := Extend(states', steps', TakeLock(c));
    states', steps' := Extend(states', steps', Recheck(c, 0));
    states', steps' := Extend(states', steps', LockRow(c));
    var s, s' := states[|steps|], states'[|steps'|];
    assert s'.calls == s.calls[c := Call(0, RowHeld(0, s.row), None)];
    assert s'.providers == s.providers[0 := Provider(None, Some(c), 30)];
  }

  /** A grant that fails without rotating: the next call presents its token again. */
  lemma FailedGrantPresentsAgain() returns (states: seq<Sys>, steps: seq<Step>, i: nat, j: nat)
    ensures Run(states, steps) && i < j < |steps| && steps[i] == LockRow(1) && steps[j] == LockRow(2)
    ensures 1 in states[i + 1].calls && states[i + 1].calls[1].stage == RowHeld(0, 0)
    ensures 2 in states[j + 1].calls && states[j + 1].calls[2].stage == RowHeld(0, 0)
  {
    states, steps := Extend([Start], [], NewProvider(0, 30));
    states, steps := GoLockRow(states, steps, 1);
    i := |steps| - 1;
    var locked := states[i + 1];
    assert locked.calls[1].stage == RowHeld(0, 0);
    states, steps := Extend(states, steps, Drop(1));
    assert states[i + 1] == locked && steps[i] == LockRow(1);
    ghost var before, stepsBefore := states, steps;
    states, steps := GoLockRow(states, steps, 2);
    assert states[i + 1] == before[i + 1] && steps[i] == stepsBefore[i];
    j := |steps| - 1;
  }

  // ---- The server's own rule ----

  lemma RedeemedStays(s: Sys, step: Step, s': Sys)
    requires Next(s, step, s')
    ensures s.redeemed <= s'.redeemed
    ensures step.Redeem? || step.RedeemUnheard? ==>
              step.call in s.calls && s.calls[step.call].stage.RowHeld?
              && s.calls[step.call].stage.presented == s.current && s.current in s'.redeemed
  {
  }

  lemma {:induction false} RedeemedGrows(states: seq<Sys>, steps: seq<Step>, i: nat, j: nat)
    requires Run(states, steps) && i <= j <= |steps|
    ensures states[i].redeemed <= states[j].redeemed
    decreases j
  {
    hide Next;
    if i < j {
      RedeemedGrows(states, steps, i, j - 1);
      assert Next(states[j - 1], steps[j - 1], states[j - 1 + 1]);
      RedeemedStays(states[j - 1], steps[j - 1], states[j]);
    }
  }

  /** No refresh token is redeemed twice. This follows from what the server accepts
      alone, whatever the providers present. */
  lemma NoTokenIsRedeemedTwice(states: seq<Sys>, steps: seq<Step>, i: nat, j: nat)
    requires Run(states, steps) && i < j < |steps|
    requires (steps[i].Redeem? || steps[i].RedeemUnheard?) && (steps[j].Redeem? || steps[j].RedeemUnheard?)
    ensures steps[i].call in states[i].calls && states[i].calls[steps[i].call].stage.RowHeld?
    ensures steps[j].call in states[j].calls && states[j].calls[steps[j].call].stage.RowHeld?
    ensures states[i].calls[steps[i].call].stage.presented != states[j].calls[steps[j].call].stage.presented
  {
    hide Inv, Next;
    assert Next(states[i], steps[i], states[i + 1]);
    assert Next(states[j], steps[j], states[j + 1]);
    RedeemedStays(states[i], steps[i], states[i + 1]);
    RedeemedStays(states[j], steps[j], states[j + 1]);
    RedeemedGrows(states, steps, i + 1, j);
    InvHolds(states, steps, j);
    CurrentUnredeemed(states[j]);
  }

  lemma CurrentUnredeemed(s: Sys)
    requires Inv(s)
    ensures s.current !in s.redeemed
  {
  }

  // ---- An undisturbed call is the handler's ----

  /** After a get that had to refresh, with nobody else at work on the provider or the row. */
  function Refreshed(s: Sys, c: CallId, p: ProviderId, seen: Option<set<AccessToken>>, doneAt: Time, expiresIn: int): Sys
    requires p in s.providers
  {
    s.(providers := s.providers[p := s.providers[p].(cached := Some(Cached(s.nextAccess, doneAt + expiresIn)))],
       calls := s.calls[c := Call(p, Answered(s.nextAccess), seen)],
       row := s.nextRefresh, current := s.nextRefresh, nextRefresh := s.nextRefresh + 1,
       nextAccess := s.nextAccess + 1, handed := s.handed + {s.nextAccess}, redeemed := s.redeemed + {s.current})
  }

  /** One call for the provider's lock, once it is queued. */
  function WithCall(s: Sys, c: CallId, p: ProviderId, seen: Option<set<AccessToken>>, stage: Stage,
                    holder: Option<CallId>): Sys
    requires p in s.providers
  {
    s.(calls := s.calls[c := Call(p, stage, seen)], providers := s.providers[p := s.providers[p].(holder := holder)])
  }

  /** From the queue for the lock to the answer: check again, lock the row, redeem its
      token, store the new one, fill the cache. */
  lemma RefreshIsSixSteps(s: Sys, c: CallId, p: ProviderId, seen: Option<set<AccessToken>>, recheckedAt: Time,
                          expiresIn: int, doneAt: Time)
    requires p in s.providers && s.providers[p].holder.None? && s.rowHolder.None? && s.row == s.current
    requires !IsFresh(s.providers[p].cached, recheckedAt, s.providers[p].margin)
    ensures Leads(Next, WithCall(s, c, p, seen, Queued, None),
                  [TakeLock(c), Recheck(c, recheckedAt), LockRow(c), Redeem(c, expiresIn)]
                  + [CommitRow(c), FillCache(c, doneAt)],
                  Refreshed(s, c, p, seen, doneAt, expiresIn))
  {
    var q := WithCall(s, c, p, seen, Queued, None);
    var s1 := WithCall(s, c, p, seen, Locked, Some(c));
    var s2 := WithCall(s, c, p, seen, Refreshing(recheckedAt), Some(c));
    var s3 := WithCall(s, c, p, seen, RowHeld(recheckedAt, s.row), Some(c)).(rowHolder := Some(c));
    var granted := GrantedStage(recheckedAt, s.row, s.nextAccess, s.nextRefresh, expiresIn);
    var s4 := WithCall(s, c, p, seen, granted, Some(c)).(
                rowHolder := Some(c), current := s.nextRefresh, nextRefresh := s.nextRefresh + 1,
                nextAccess := s.nextAccess + 1, redeemed := s.redeemed + {s.current});
    var s5 := WithCall(s, c, p, seen, Committed(s.nextAccess, expiresIn), Some(c)).(
                row := s.nextRefresh, current := s.nextRefresh, nextRefresh := s.nextRefresh + 1,
                nextAccess := s.nextAccess + 1, redeemed := s.redeemed + {s.current});
    LockAndCheck(s, c, p, seen, recheckedAt);
    RedeemHeld(s, c, p, seen, recheckedAt, expiresIn);
    StoreAndCache(s, c, p, seen, recheckedAt, expiresIn, doneAt);
    hide Next, Leads;
    LeadsByFour(Next, q, TakeLock(c), s1, Recheck(c, recheckedAt), s2, LockRow(c), s3, Redeem(c, expiresIn), s4);
    LeadsByTwo(Next, s4, CommitRow(c), s5, FillCache(c, doneAt), Refreshed(s, c, p, seen, doneAt, expiresIn));
    LeadsOn(Next, q, [TakeLock(c), Recheck(c, recheckedAt), LockRow(c), Redeem(c, expiresIn)], s4,
            [CommitRow(c), FillCache(c, doneAt)], Refreshed(s, c, p, seen, doneAt, expiresIn));
  }

  lemma LockAndCheck(s: Sys, c: CallId, p: ProviderId, seen: Option<set<AccessToken>>, at: Time)
    requires p in s.providers && s.providers[p].holder.None? && s.rowHolder.None?
    requires !IsFresh(s.providers[p].cached, at, s.providers[p].margin)
    ensures var s1 := WithCall(s, c, p, seen, Locked, Some(c));
            var s2 := WithCall(s, c, p, seen, Refreshing(at), Some(c));
            && Next(WithCall(s, c, p, seen, Queued, None), TakeLock(c), s1)
            && Next(s1, Recheck(c, at), s2)
            && Next(s2, LockRow(c), WithCall(s, c, p, seen, RowHeld(at, s.row), Some(c)).(rowHolder := Some(c)))
  {
    var s1 := WithCall(s, c, p, seen, Locked, Some(c));
    var s2 := WithCall(s, c, p, seen, Refreshing(at), Some(c));
    assert Apply(WithCall(s, c, p, seen, Queued, None), TakeLock(c)) == s1;
    assert Apply(s1, Recheck(c, at)) == s2;
  }

  lemma RedeemHeld(s: Sys, c: CallId, p: ProviderId, seen: Option<set<AccessToken>>, at: Time, expiresIn: int)
    requires p in s.providers && s.row == s.current
    ensures Next(WithCall(s, c, p, seen, RowHeld(at, s.row), Some(c)).(rowHolder := Some(c)), Redeem(c, expiresIn),
                 WithCall(s, c, p, seen, GrantedStage(at, s.row, s.nextAccess, s.nextRefresh, expiresIn), Some(c)).(
                   rowHolder := Some(c), current := s.nextRefresh, nextRefresh := s.nextRefresh + 1,
                   nextAccess := s.nextAccess + 1, redeemed := s.redeemed + {s.current}))
  {
  }

  lemma StoreAndCache(s: Sys, c: CallId, p: ProviderId, seen: Option<set<AccessToken>>, at: Time, expiresIn: int,
                      doneAt: Time)
    requires p in s.providers && s.providers[p].holder.None? && s.rowHolder.None?
    ensures var granted := GrantedStage(at, s.row, s.nextAccess, s.nextRefresh, expiresIn);
            var s4 := WithCall(s, c, p, seen, granted, Some(c)).(
                        rowHolder := Some(c), current := s.nextRefresh, nextRefresh := s.nextRefresh + 1,
                        nextAccess := s.nextAccess + 1, redeemed := s.redeemed + {s.current});
            var s5 := WithCall(s, c, p, seen, Committed(s.nextAccess, expiresIn), Some(c)).(
                        row := s.nextRefresh, current := s.nextRefresh, nextRefresh := s.nextRefresh + 1,
                        nextAccess := s.nextAccess + 1, redeemed := s.redeemed + {s.current});
            && Next(s4, CommitRow(c), s5)
            && Next(s5, FillCache(c, doneAt), Refreshed(s, c, p, seen, doneAt, expiresIn))
  {
    var s5 := WithCall(s, c, p, seen, Committed(s.nextAccess, expiresIn), Some(c)).(
                row := s.nextRefresh, current := s.nextRefresh, nextRefresh := s.nextRefresh + 1,
                nextAccess := s.nextAccess + 1, redeemed := s.redeemed + {s.current});
    assert Apply(s5, FillCache(c, doneAt)).providers == Refreshed(s, c, p, seen, doneAt, expiresIn).providers;
  }

  lemma QueueForGet(s: Sys, c: CallId, p: ProviderId, now: Time)
    requires c !in s.calls && p in s.providers && s.providers[p].holder.None?
    requires !IsFresh(s.providers[p].cached, now, s.providers[p].margin)
    ensures Leads(Next, s, [StartGet(c, p), ReadCache(c, now)], WithCall(s, c, p, None, Queued, None))
  {
    var a := Apply(s, StartGet(c, p));
    assert Apply(a, ReadCache(c, now)) == WithCall(s, c, p, None, Queued, None);
    LeadsByTwo(Next, s, StartGet(c, p), a, ReadCache(c, now), WithCall(s, c, p, None, Queued, None));
  }

  /** A get that meets nobody and finds no fresh token does what the handler does. */
  lemma GetIsItsSteps(s: Sys, c: CallId, p: ProviderId, now: Time, recheckedAt: Time, expiresIn: int, doneAt: Time)
    requires c !in s.calls && p in s.providers && s.providers[p].holder.None? && s.rowHolder.None? && s.row == s.current
    requires !IsFresh(s.providers[p].cached, now, s.providers[p].margin)
    requires !IsFresh(s.providers[p].cached, recheckedAt, s.providers[p].margin)
    ensures Leads(Next, s,
                  [StartGet(c, p), ReadCache(c, now)]
                  + ([TakeLock(c), Recheck(c, recheckedAt), LockRow(c), Redeem(c, expiresIn)]
                     + [CommitRow(c), FillCache(c, doneAt)]),
                  Refreshed(s, c, p, None, doneAt, expiresIn))
  {
    hide *;
    QueueForGet(s, c, p, now);
    RefreshIsSixSteps(s, c, p, None, recheckedAt, expiresIn, doneAt);
    LeadsOn(Next, s, [StartGet(c, p), ReadCache(c, now)], WithCall(s, c, p, None, Queued, None),
            [TakeLock(c), Recheck(c, recheckedAt), LockRow(c), Redeem(c, expiresIn)]
            + [CommitRow(c), FillCache(c, doneAt)],
            Refreshed(s, c, p, None, doneAt, expiresIn));
  }

  function Cleared(s: Sys, p: ProviderId): Sys
    requires p in s.providers
  {
    s.(providers := s.providers[p := s.providers[p].(cached := None)])
  }

  lemma QueueForInvalidate(s: Sys, c: CallId, p: ProviderId)
    requires c !in s.calls && p in s.providers && s.providers[p].holder.None?
    ensures Leads(Next, s, [StartInvalidate(c, p), Clear(c)], WithCall(Cleared(s, p), c, p, Some(s.handed), Queued, None))
  {
    var a := Apply(s, StartInvalidate(c, p));
    var b := WithCall(Cleared(s, p), c, p, Some(s.handed), Queued, None);
    assert Apply(a, Clear(c)) == b;
    LeadsByTwo(Next, s, StartInvalidate(c, p), a, Clear(c), b);
  }

  /** So does an invalidate: its cache is cleared first, so its own check never holds it up. */
  lemma InvalidateIsItsSteps(s: Sys, c: CallId, p: ProviderId, recheckedAt: Time, expiresIn: int, doneAt: Time)
    requires c !in s.calls && p in s.providers && s.providers[p].holder.None? && s.rowHolder.None? && s.row == s.current
    ensures Leads(Next, s,
                  [StartInvalidate(c, p), Clear(c)]
                  + ([TakeLock(c), Recheck(c, recheckedAt), LockRow(c), Redeem(c, expiresIn)]
                     + [CommitRow(c), FillCache(c, doneAt)]),
                  Refreshed(Cleared(s, p), c, p, Some(s.handed), doneAt, expiresIn))
  {
    hide Next, Leads, Refreshed, WithCall;
    QueueForInvalidate(s, c, p);
    RefreshIsSixSteps(Cleared(s, p), c, p, Some(s.handed), recheckedAt, expiresIn, doneAt);
    LeadsOn(Next, s, [StartInvalidate(c, p), Clear(c)], WithCall(Cleared(s, p), c, p, Some(s.handed), Queued, None),
            [TakeLock(c), Recheck(c, recheckedAt), LockRow(c), Redeem(c, expiresIn)]
            + [CommitRow(c), FillCache(c, doneAt)],
            Refreshed(Cleared(s, p), c, p, Some(s.handed), doneAt, expiresIn));
  }
}
