/** What the credential status pipeline guarantees over whole runs. */
module StatusTheorems {
  import opened Wrappers
  import opened StatusBits
  import opened StatusLists
  import opened IssuedCredentials
  import opened StatusPipeline

  // ---- Rows and slots ----

  /** In every interleaving each committed credential's slot encodes its
      committed state. */
  lemma SlotEncodesState(states: seq<Sys>, steps: seq<Step>, n: nat, c: CredentialId)
    requires Run(states, steps) && n <= |steps| && c in states[n].creds
    ensures var r := states[n].creds[c];
            r.list in states[n].lists
            && r.index < 4 * |states[n].lists[r.list].bits|
            && SlotAt(states[n].lists[r.list].bits, r.index) == match r.state
                                                                case Active => StatusValue.Valid
                                                                case Suspended => StatusValue.Suspended
                                                                case Revoked => StatusValue.Revoked
  {
    InvHolds(states, steps, n);
  }

  /** The credentials of a list sit one-to-one on the indices below its
      allocation count: distinct credentials on distinct indices, every such index
      taken (a rolled-back issuance leaves no gap), the rest still zero. */
  lemma IndicesAreDense(states: seq<Sys>, steps: seq<Step>, n: nat, l: ListId)
    requires Run(states, steps) && n <= |steps| && l in states[n].lists
    ensures var s := states[n];
            && s.lists[l].allocatedCount <= 131072 == 4 * |s.lists[l].bits|
            && (forall c :: c in s.creds && s.creds[c].list == l ==> s.creds[c].index < s.lists[l].allocatedCount)
            && (forall c, d :: c in s.creds && d in s.creds && c != d && s.creds[c].list == s.creds[d].list
                         ==> s.creds[c].index != s.creds[d].index)
            && (forall i :: 0 <= i < s.lists[l].allocatedCount ==> Owned(s, l, i))
            && (forall i :: s.lists[l].allocatedCount <= i < 131072
                         ==> SlotAt(s.lists[l].bits, i) == Valid)
  {
    InvHolds(states, steps, n);
  }

  /** A rolled-back issuance leaves no gap: every allocated index has its credential. */
  lemma EveryIndexIsTaken(states: seq<Sys>, steps: seq<Step>, n: nat, l: ListId, i: nat) returns (c: CredentialId)
    requires Run(states, steps) && n <= |steps| && l in states[n].lists && i < states[n].lists[l].allocatedCount
    ensures c in states[n].creds && states[n].creds[c].list == l && states[n].creds[c].index == i
  {
    InvHolds(states, steps, n);
    assert Owned(states[n], l, i);
    c :| c in states[n].creds && states[n].creds[c].list == l && states[n].creds[c].index == i;
  }

  /** The insert of an issuance that holds an index never meets the unique
      constraint on (list, index). */
  lemma InsertNeverCollides(states: seq<Sys>, steps: seq<Step>, n: nat, t: TxId)
    requires Run(states, steps) && n <= |steps| && t in states[n].txs && states[n].txs[t].IndexTaken?
    ensures SlotUnused(states[n], states[n].txs[t].list, states[n].txs[t].index)
    ensures forall c :: c in states[n].creds && states[n].creds[c].list == states[n].txs[t].list ==>
              states[n].creds[c].index != states[n].txs[t].index
  {
    InvHolds(states, steps, n);
    assert OpenTransaction(states[n], states[n].txs[t]);
  }

  lemma CommitEdit(s: Sys, t: TxId)
    requires Transactions(s) && LifecycleReady(s, t)
    ensures var s', x := CommitLifecycle(s, t), s.txs[t];
            var l, index := s.creds[x.cred].list, s.creds[x.cred].index;
            && index < 4 * |s.lists[l].bits|
            && s'.lists.Keys == s.lists.Keys
            && Slots(s'.lists[l].bits) == Slots(s.lists[l].bits)[index := PublicStatus(Target(x.verb))]
            && forall m :: m in s.lists && m != l ==> s'.lists[m] == s.lists[m]
  {
  }

  /** No lost update: a lifecycle commit replaces one slot of one list, although
      it writes the whole bitstring back. */
  lemma CommitRewritesOneSlot(states: seq<Sys>, steps: seq<Step>, n: nat, t: TxId)
    requires Run(states, steps) && n < |steps| && steps[n] == Commit(t) && LifecycleReady(states[n], t)
    ensures var s, s', x := states[n], states[n + 1], states[n].txs[t];
            var l, index := s.creds[x.cred].list, s.creds[x.cred].index;
            && index < 4 * |s.lists[l].bits|
            && s'.lists.Keys == s.lists.Keys
            && Slots(s'.lists[l].bits) == Slots(s.lists[l].bits)[index := PublicStatus(Target(x.verb))]
            && forall m :: m in s.lists && m != l ==> s'.lists[m] == s.lists[m]
  {
    hide Slots, SlotAt, WithSlot, Rows, SlotsMatchRows, SlotsAssigned, Locks, Transactions, History, Rounds,
         OnlyCurrentListsMove, AllocatesFromCurrent;
    InvHolds(states, steps, n);
    assert Next(states[n], steps[n], states[n + 1]);
    CommitEdit(states[n], t);
  }

  // ---- Legal transitions ----

  predicate IsWriter(t: Tx) {
    t.StateWritten? || t.ListLocked? || t.BitsWritten?
  }

  predicate Ends(step: Step, t: TxId) {
    step == Commit(t) || step == Rollback(t)
  }

  /** A call holds its row from the UPDATE of the state on, until it ends. */
  lemma WriterEffect(s: Sys, step: Step, t: TxId)
    requires Enabled(s, step) && t in Apply(s, step).txs && IsWriter(Apply(s, step).txs[t])
    ensures var x := Apply(s, step).txs[t];
            && t in s.txs && (IsWriter(s.txs[t]) || (step == SetState(t) && s.txs[t].Found?))
            && x.cred == s.txs[t].cred && x.verb == s.txs[t].verb && !Ends(step, t)
  {
    hide Zeros, WithSlot, ListFree, SlotUnused, IdUnused, CredentialFree;
  }

  lemma WriterStays(s: Sys, step: Step, t: TxId)
    requires Enabled(s, step) && t in s.txs && (IsWriter(s.txs[t]) || step == SetState(t)) && !Ends(step, t)
    ensures var s' := Apply(s, step);
            && t in s'.txs && IsWriter(s'.txs[t]) && !s.txs[t].ListChosen? && !s.txs[t].IndexTaken?
            && s'.txs[t].cred == s.txs[t].cred && s'.txs[t].verb == s.txs[t].verb
  {
    hide Zeros, WithSlot, ListFree, SlotUnused, IdUnused, CredentialFree;
  }

  /** A row changes only when the lifecycle call that holds it commits. */
  lemma CredentialEffect(s: Sys, step: Step, c: CredentialId)
    requires Transactions(s) && Enabled(s, step) && c in s.creds
    ensures var s' := Apply(s, step);
            && c in s'.creds
            && (s'.creds[c] == s.creds[c]
                || (step.Commit? && LifecycleReady(s, step.tx) && s.txs[step.tx].cred == c
                    && s'.creds[c] == s.creds[c].(state := Target(s.txs[step.tx].verb))))
            && ((step.Commit? && LifecycleReady(s, step.tx) && s.txs[step.tx].cred == c)
                ==> s'.creds[c].state == Target(s.txs[step.tx].verb))
  {
    hide Zeros, WithSlot, ListFree, SlotUnused, IdUnused, CredentialFree;
    if step.Commit? {
      assert OpenTransaction(s, s.txs[step.tx]);
    }
  }

  lemma HeldCredentialStays(s: Sys, step: Step, s': Sys, t: TxId)
    requires Inv(s) && Next(s, step, s') && t in s.txs && (IsWriter(s.txs[t]) || step == SetState(t)) && !Ends(step, t)
    ensures t in s'.txs && IsWriter(s'.txs[t]) && (IsWriter(s.txs[t]) || s.txs[t].Found?)
            && s'.txs[t].cred == s.txs[t].cred && s'.txs[t].verb == s.txs[t].verb
            && s.txs[t].cred in s.creds && s.txs[t].cred in s'.creds
            && s'.creds[s.txs[t].cred] == s.creds[s.txs[t].cred]
  {
    hide Rows, SlotsMatchRows, SlotsAssigned, History, Rounds, OnlyCurrentListsMove, AllocatesFromCurrent,
         Apply, Enabled;
    WriterStays(s, step, t);
    WriterEffect(s, step, t);
    assert OpenTransaction(s, s.txs[t]);
    CredentialEffect(s, step, s.txs[t].cred);
    if step.Commit? && LifecycleReady(s, step.tx) {
      OthersRow(s, step.tx, t);
    }
  }

  lemma OthersRow(s: Sys, o: TxId, t: TxId)
    requires Locks(s) && LifecycleReady(s, o) && t in s.txs && IsWriter(s.txs[t]) && o != t
    ensures s.txs[o].cred != s.txs[t].cred
  {
    assert HoldsCredential(s.txs[t], s.txs[t].cred);
  }

  /** `t` took its row lock at step i and has not ended before j. */
  ghost predicate WritingSince(steps: seq<Step>, i: nat, j: nat, t: TxId) {
    i < j <= |steps| && steps[i] == SetState(t) && forall k :: i < k < j ==> !Ends(steps[k], t)
  }

  lemma {:induction false} RowHeldSinceItsLock(states: seq<Sys>, steps: seq<Step>, i: nat, j: nat, t: TxId)
    requires Run(states, steps) && WritingSince(steps, i, j, t)
    ensures t in states[i].txs && states[i].txs[t].Found?
    ensures t in states[j].txs && IsWriter(states[j].txs[t])
    ensures var x := states[i].txs[t];
            && states[j].txs[t].cred == x.cred && states[j].txs[t].verb == x.verb
            && x.cred in states[i].creds && x.cred in states[j].creds
            && states[j].creds[x.cred] == states[i].creds[x.cred]
    decreases j
  {
    hide Inv, Apply;
    InvHolds(states, steps, j - 1);
    assert Next(states[j - 1], steps[j - 1], states[j - 1 + 1]);
    if i < j - 1 {
      RowHeldSinceItsLock(states, steps, i, j - 1, t);
    }
    hide Enabled;
    HeldCredentialStays(states[j - 1], steps[j - 1], states[j], t);
  }

  /** The step from `before` to `after` takes the credential out of Revoked. */
  ghost predicate LeavesRevoked(before: Sys, after: Sys, c: CredentialId) {
    && c in before.creds && before.creds[c].state == CredentialState.Revoked
    && c in after.creds && after.creds[c].state != CredentialState.Revoked
  }

  /** When its row lock came, `t` found the credential already Revoked, and it was
      going to write something else. */
  ghost predicate FindsRevoked(s: Sys, t: TxId) {
    t in s.txs && s.txs[t].Found? && s.txs[t].cred in s.creds
    && s.creds[s.txs[t].cred].state == CredentialState.Revoked && s.txs[t].verb != Revoke
  }

  /** What a lifecycle commit does was decided when its row lock came: the transition
      is a documented one exactly when the verb was permitted of the row then, and it
      leaves Revoked exactly when the row was Revoked then and the verb another. */
  lemma CommitIsLegalExactlyWhenPermitted(states: seq<Sys>, steps: seq<Step>, i: nat, j: nat, t: TxId)
    requires Run(states, steps) && j < |steps| && WritingSince(steps, i, j, t) && steps[j] == Commit(t)
    ensures t in states[i].txs && states[i].txs[t].Found? && states[i].txs[t].cred in states[i].creds
    ensures var c, verb := states[i].txs[t].cred, states[i].txs[t].verb;
            && c in states[j].creds && c in states[j + 1].creds
            && (LegalTransition(states[j].creds[c].state, states[j + 1].creds[c].state) <==>
                  Permits(verb, states[i].creds[c].state))
            && (LeavesRevoked(states[j], states[j + 1], c) <==> FindsRevoked(states[i], t))
            && ((states[j].creds[c].state == CredentialState.Revoked
                 && states[j + 1].creds[c].state != CredentialState.Revoked) <==>
                  states[i].creds[c].state == CredentialState.Revoked && verb != Revoke)
  {
    hide Inv, Apply;
    RowHeldSinceItsLock(states, steps, i, j, t);
    InvHolds(states, steps, j);
    assert Next(states[j], steps[j], states[j + 1]);
    var c, verb := states[i].txs[t].cred, states[i].txs[t].verb;
    CommitTarget(states[j], t, states[j + 1]);
    VerbsRealiseTheTransitions(verb, states[i].creds[c].state);
  }

  lemma CommitTarget(s: Sys, t: TxId, s': Sys)
    requires Inv(s) && Next(s, Commit(t), s') && t in s.txs && IsWriter(s.txs[t])
    ensures s.txs[t].cred in s.creds && s.txs[t].cred in s'.creds
    ensures s'.creds[s.txs[t].cred].state == Target(s.txs[t].verb)
  {
    hide Rows, SlotsMatchRows, SlotsAssigned, Locks, History, Rounds, OnlyCurrentListsMove, AllocatesFromCurrent,
         Apply;
    assert LifecycleReady(s, t);
    CredentialEffect(s, Commit(t), s.txs[t].cred);
  }

  lemma WriterNext(s: Sys, step: Step, s': Sys, t: TxId)
    requires Next(s, step, s') && t in s'.txs && IsWriter(s'.txs[t])
    ensures t in s.txs && (IsWriter(s.txs[t]) || step == SetState(t)) && !Ends(step, t)
  {
    hide Apply, Enabled;
    WriterEffect(s, step, t);
  }

  lemma {:induction false} EveryWriterTookItsLock(states: seq<Sys>, steps: seq<Step>, j: nat, t: TxId)
    returns (i: nat)
    requires Run(states, steps) && j <= |steps| && t in states[j].txs && IsWriter(states[j].txs[t])
    ensures WritingSince(steps, i, j, t)
  {
    hide Next;
    assert j > 0;
    assert Next(states[j - 1], steps[j - 1], states[j - 1 + 1]);
    WriterNext(states[j - 1], steps[j - 1], states[j], t);
    if steps[j - 1] == SetState(t) {
      i := j - 1;
    } else {
      i := EveryWriterTookItsLock(states, steps, j - 1, t);
    }
  }

  ghost predicate RevokedLeftAt(states: seq<Sys>, n: nat, c: CredentialId)
    requires n + 1 < |states|
  {
    LeavesRevoked(states[n], states[n + 1], c)
  }

  /** Some step of the run takes a credential out of Revoked. */
  ghost predicate RevokedIsLeft(states: seq<Sys>, steps: seq<Step>)
    requires |states| == |steps| + 1
  {
    exists n, c :: 0 <= n < |steps| && RevokedLeftAt(states, n, c)
  }

  /** Some call commits although it found the credential Revoked when its lock came. */
  ghost predicate StaleCallCommits(states: seq<Sys>, steps: seq<Step>)
    requires |states| == |steps| + 1
  {
    exists i, j, t :: 0 <= i < j < |steps| && WritingSince(steps, i, j, t) && steps[j] == Commit(t)
                      && FindsRevoked(states[i], t)
  }

  lemma LeavingTakesACommit(s: Sys, step: Step, s': Sys, c: CredentialId)
    requires Inv(s) && Next(s, step, s') && LeavesRevoked(s, s', c)
    ensures step.Commit? && step.tx in s.txs && IsWriter(s.txs[step.tx]) && s.txs[step.tx].cred == c
  {
    hide Rows, SlotsMatchRows, SlotsAssigned, Locks, History, Rounds, OnlyCurrentListsMove, AllocatesFromCurrent,
         Apply, Enabled;
    CredentialEffect(s, step, c);
  }

  /** Revoked is final in a run if and only if no call commits that found the
      credential already Revoked under its row lock and writes another state. */
  lemma RevokedIsFinalUnlessAStaleCallCommits(states: seq<Sys>, steps: seq<Step>)
    requires Run(states, steps)
    ensures RevokedIsLeft(states, steps) <==> StaleCallCommits(states, steps)
  {
    hide Inv, Next, LeavesRevoked, FindsRevoked, WritingSince;
    if RevokedIsLeft(states, steps) {
      var n, c :| 0 <= n < |steps| && RevokedLeftAt(states, n, c);
      StaleCallIn(states, steps, n, c);
    }
    if StaleCallCommits(states, steps) {
      var i, j, t :| 0 <= i < j < |steps| && WritingSince(steps, i, j, t) && steps[j] == Commit(t)
                     && FindsRevoked(states[i], t);
      CommitIsLegalExactlyWhenPermitted(states, steps, i, j, t);
      assert RevokedLeftAt(states, j, states[i].txs[t].cred);
    }
  }

  /** Behind every departure from Revoked: the call that committed it found the row
      Revoked when its lock came, and was to write something else. */
  lemma StaleCallOf(states: seq<Sys>, steps: seq<Step>, n: nat, c: CredentialId)
    returns (i: nat, t: TxId)
    requires Run(states, steps) && n < |steps| && c in states[n].creds && c in states[n + 1].creds
    requires states[n].creds[c].state == CredentialState.Revoked
    requires states[n + 1].creds[c].state != CredentialState.Revoked
    ensures i < n && steps[i] == SetState(t) && steps[n] == Commit(t)
    ensures forall k :: i < k < n ==> steps[k] != Commit(t) && steps[k] != Rollback(t)
    ensures t in states[i].txs && states[i].txs[t].Found? && states[i].txs[t].cred == c && c in states[i].creds
    ensures states[i].creds[c].state == CredentialState.Revoked && states[i].txs[t].verb != Revoke
  {
    hide Inv, Next;
    InvHolds(states, steps, n);
    assert Next(states[n], steps[n], states[n + 1]);
    LeavingTakesACommit(states[n], steps[n], states[n + 1], c);
    t := steps[n].tx;
    i := EveryWriterTookItsLock(states, steps, n, t);
    CommitIsLegalExactlyWhenPermitted(states, steps, i, n, t);
    SameCredential(states, steps, i, n, t);
  }

  lemma StaleCallIn(states: seq<Sys>, steps: seq<Step>, n: nat, c: CredentialId)
    requires Run(states, steps) && n < |steps| && LeavesRevoked(states[n], states[n + 1], c)
    ensures StaleCallCommits(states, steps)
  {
    hide Next;
    var i, t := StaleCallOf(states, steps, n, c);
    assert WritingSince(steps, i, n, t) && FindsRevoked(states[i], t);
  }

  lemma SameCredential(states: seq<Sys>, steps: seq<Step>, i: nat, n: nat, t: TxId)
    requires Run(states, steps) && WritingSince(steps, i, n, t)
    ensures i < n && t in states[i].txs && states[i].txs[t].Found? && t in states[n].txs && IsWriter(states[n].txs[t])
            && states[i].txs[t].cred == states[n].txs[t].cred
  {
    hide Next;
    RowHeldSinceItsLock(states, steps, i, n, t);
  }

  /** Where the unlocked read of every call is still good when its row lock comes,
      every state change is a documented transition; in particular Revoked is final. */
  ghost predicate ReadsStayGood(states: seq<Sys>, steps: seq<Step>)
    requires Run(states, steps)
  {
    forall k :: 0 <= k < |steps| && steps[k].SetState? && Next(states[k], steps[k], states[k + 1]) ==>
      var x := states[k].txs[steps[k].tx];
      Permits(x.verb, states[k].creds[x.cred].state)
  }

  lemma GoodReadsMakeRevokedFinal(states: seq<Sys>, steps: seq<Step>, n: nat, c: CredentialId)
    requires Run(states, steps) && ReadsStayGood(states, steps) && n < |steps| && c in states[n].creds
    ensures c in states[n + 1].creds
    ensures states[n + 1].creds[c].state == states[n].creds[c].state
            || LegalTransition(states[n].creds[c].state, states[n + 1].creds[c].state)
  {
    forall i, j, t | 0 <= i < j < |steps| && WritingSince(steps, i, j, t) && steps[j] == Commit(t)
      ensures !FindsRevoked(states[i], t)
    {
      assert Next(states[i], steps[i], states[i + 1]);
    }
    hide ReadsStayGood, Inv, Next;
    RevokedIsFinalUnlessAStaleCallCommits(states, steps);
    InvHolds(states, steps, n);
    assert Next(states[n], steps[n], states[n + 1]);
    CredentialsStay(states[n], steps[n], states[n + 1], c);
    assert !RevokedLeftAt(states, n, c);
  }

  lemma CredentialsStay(s: Sys, step: Step, s': Sys, c: CredentialId)
    requires Inv(s) && Next(s, step, s') && c in s.creds
    ensures c in s'.creds
  {
    hide Rows, SlotsMatchRows, SlotsAssigned, Locks, History, Rounds, OnlyCurrentListsMove, AllocatesFromCurrent,
         Apply, Enabled;
    CredentialEffect(s, step, c);
  }
}
