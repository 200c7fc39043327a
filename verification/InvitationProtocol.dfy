/** Invitation linking as a state machine over its statements: transactions that
    accept, create and revoke invitations interleave under READ COMMITTED. Reads take
    no lock; an UPDATE waits for the row, an INSERT for a conflicting open
    transaction; writes become visible at the commit. */
module InvitationProtocol {
  import opened Wrappers
  import opened Invitations

  type TxId = nat

  datatype Tx =
    // Accept: invitation found pending; account found unlinked; account row
    // updated; invitation row updated.
    | Resolved(inv: InvitationId, identity: Identity, now: Time)
    | Checked(inv: InvitationId, account: AccountId, identity: Identity, now: Time)
    | Linked(inv: InvitationId, account: AccountId, identity: Identity, now: Time)
    | Marked(inv: InvitationId, account: AccountId, identity: Identity, now: Time)
    // Create: account found unlinked; due row, if any, updated; row inserted.
    | CreateChecked(account: AccountId, tenant: TenantId, now: Time)
    | CreateCleared(account: AccountId, tenant: TenantId, now: Time, expired: Option<InvitationId>)
    | CreateInserted(account: AccountId, tenant: TenantId, now: Time, expired: Option<InvitationId>,
                     inv: InvitationId, hash: CodeHash, expiresAt: Time)
    // Revoke: invitation found pending; invitation row updated.
    | RevokeRead(inv: InvitationId, now: Time)
    | RevokeMarked(inv: InvitationId, now: Time)

  datatype Sys = Sys(
    accounts: map<AccountId, Account>,
    invitations: map<InvitationId, Invitation>,
    txs: map<TxId, Tx>)

  datatype Step =
    | AddAccount(account: AccountId, tenant: TenantId)
    | Resolve(tx: TxId, inv: InvitationId, hash: CodeHash, identity: Identity, now: Time)
    | CheckAccount(tx: TxId)
    | Link(tx: TxId)
    | MarkAccepted(tx: TxId)
    | CommitAccept(tx: TxId)
    | BeginCreate(tx: TxId, account: AccountId, tenant: TenantId, now: Time)
    | ClearDue(tx: TxId, hit: Option<InvitationId>)
    | InsertInvitation(tx: TxId, inv: InvitationId, hash: CodeHash, expiresIn: nat)
    | CommitCreate(tx: TxId)
    | ReadForRevoke(tx: TxId, inv: InvitationId, now: Time)
    | MarkRevoked(tx: TxId)
    | CommitRevoke(tx: TxId)
    // An error answer, a lost connection or a crash: the transaction rolls back.
    | Drop(tx: TxId)

  const Empty := Sys(map[], map[], map[])

  predicate HoldsAccount(t: Tx, a: AccountId) {
    (t.Linked? || t.Marked?) && t.account == a
  }

  predicate HoldsInvitation(t: Tx, i: InvitationId) {
    match t
    case Marked(inv, _, _, _) => inv == i
    case CreateCleared(_, _, _, expired) => expired == Some(i)
    case CreateInserted(_, _, _, expired, _, _, _) => expired == Some(i)
    case RevokeMarked(inv, _) => inv == i
    case _ => false
  }

  predicate AccountFree(s: Sys, tx: TxId, a: AccountId) {
    forall o :: o in s.txs && o != tx ==> !HoldsAccount(s.txs[o], a)
  }

  predicate InvitationFree(s: Sys, tx: TxId, i: InvitationId) {
    forall o :: o in s.txs && o != tx ==> !HoldsInvitation(s.txs[o], i)
  }

  /** No row and no open transaction links the identity to another account of the tenant. */
  predicate IdentityFree(s: Sys, tx: TxId, a: AccountId, identity: Identity)
    requires a in s.accounts
  {
    && !IdentityTaken(s.accounts, a, identity)
    && forall o :: o in s.txs && o != tx && (s.txs[o].Linked? || s.txs[o].Marked?)
                   && s.txs[o].account in s.accounts && s.accounts[s.txs[o].account].tenant == s.accounts[a].tenant
                   ==> s.txs[o].identity != identity
  }

  predicate IdUnused(s: Sys, i: InvitationId) {
    i !in s.invitations && forall o :: o in s.txs && s.txs[o].CreateInserted? ==> s.txs[o].inv != i
  }

  predicate HashFree(s: Sys, hash: CodeHash) {
    HashUnused(s.invitations, hash) && forall o :: o in s.txs && s.txs[o].CreateInserted? ==> s.txs[o].hash != hash
  }

  /** Only the row this transaction has expired itself may still be stored pending. */
  predicate NoOtherPending(s: Sys, a: AccountId, expired: Option<InvitationId>) {
    forall j :: j in s.invitations && s.invitations[j].account == a && s.invitations[j].state == Pending
                ==> expired == Some(j)
  }

  predicate PendingSlotFree(s: Sys, tx: TxId, a: AccountId, expired: Option<InvitationId>) {
    && NoOtherPending(s, a, expired)
    && forall o :: o in s.txs && o != tx && s.txs[o].CreateInserted? ==> s.txs[o].account != a
  }

  predicate NothingDue(s: Sys, a: AccountId, now: Time) {
    forall j :: j in s.invitations ==> !Due(s.invitations[j], a, now)
  }

  predicate Enabled(s: Sys, step: Step) {
    match step
    case AddAccount(a, _) => a !in s.accounts
    case Resolve(t, i, hash, _, now) =>
      t !in s.txs && i in s.invitations && s.invitations[i].hash == Some(hash)
      && ObservedState(s.invitations[i], now) == Pending
    case CheckAccount(t) =>
      t in s.txs && s.txs[t].Resolved? && s.txs[t].inv in s.invitations
      && s.invitations[s.txs[t].inv].account in s.accounts
      && s.accounts[s.invitations[s.txs[t].inv].account].tenant == s.invitations[s.txs[t].inv].tenant
      && s.accounts[s.invitations[s.txs[t].inv].account].identity.None?
    case Link(t) => t in s.txs && s.txs[t].Checked? && s.txs[t].account in s.accounts
                    && AccountFree(s, t, s.txs[t].account)
                    && IdentityFree(s, t, s.txs[t].account, s.txs[t].identity)
    case MarkAccepted(t) => t in s.txs && s.txs[t].Linked? && s.txs[t].inv in s.invitations
                            && InvitationFree(s, t, s.txs[t].inv)
    case CommitAccept(t) => t in s.txs && s.txs[t].Marked? && s.txs[t].inv in s.invitations
                            && s.txs[t].account in s.accounts
    case BeginCreate(t, a, tenant, _) => t !in s.txs && a in s.accounts && s.accounts[a].tenant == tenant
                                         && s.accounts[a].identity.None?
    case ClearDue(t, hit) =>
      t in s.txs && s.txs[t].CreateChecked?
      && (match hit
          case None => NothingDue(s, s.txs[t].account, s.txs[t].now)
          case Some(i) => i in s.invitations && Due(s.invitations[i], s.txs[t].account, s.txs[t].now)
                          && InvitationFree(s, t, i))
    case InsertInvitation(t, i, hash, _) =>
      t in s.txs && s.txs[t].CreateCleared? && IdUnused(s, i) && HashFree(s, hash)
      && PendingSlotFree(s, t, s.txs[t].account, s.txs[t].expired)
    case CommitCreate(t) => t in s.txs && s.txs[t].CreateInserted?
                            && (s.txs[t].expired.Some? ==> s.txs[t].expired.value in s.invitations)
    case ReadForRevoke(t, i, now) => t !in s.txs && i in s.invitations
                                     && ObservedState(s.invitations[i], now) == Pending
    case MarkRevoked(t) => t in s.txs && s.txs[t].RevokeRead? && s.txs[t].inv in s.invitations
                           && InvitationFree(s, t, s.txs[t].inv)
    case CommitRevoke(t) => t in s.txs && s.txs[t].RevokeMarked? && s.txs[t].inv in s.invitations
    case Drop(t) => t in s.txs
  }

  function Apply(s: Sys, step: Step): Sys
    requires Enabled(s, step)
  {
    match step
    case AddAccount(a, tenant) => s.(accounts := s.accounts[a := Account(tenant, None)])
    case Resolve(t, i, _, identity, now) => s.(txs := s.txs[t := Resolved(i, identity, now)])
    case CheckAccount(t) =>
      var x := s.txs[t];
      s.(txs := s.txs[t := Checked(x.inv, s.invitations[x.inv].account, x.identity, x.now)])
    // The UPDATE is not guarded: it overwrites whatever identity is stored.
    case Link(t) =>
      var x := s.txs[t];
      s.(txs := s.txs[t := Linked(x.inv, x.account, x.identity, x.now)])
    // Guarded on `state = 'pending'`: no row means an error and a rollback.
    case MarkAccepted(t) =>
      var x := s.txs[t];
      s.(txs := if s.invitations[x.inv].state == Pending
                then s.txs[t := Marked(x.inv, x.account, x.identity, x.now)] else s.txs - {t})
    case CommitAccept(t) =>
      var x := s.txs[t];
      s.(accounts := s.accounts[x.account := s.accounts[x.account].(identity := Some(x.identity))],
         invitations := s.invitations[x.inv := MarkedAccepted(s.invitations[x.inv], x.now)],
         txs := s.txs - {t})
    case BeginCreate(t, a, tenant, now) => s.(txs := s.txs[t := CreateChecked(a, tenant, now)])
    case ClearDue(t, hit) =>
      var x := s.txs[t];
      s.(txs := s.txs[t := CreateCleared(x.account, x.tenant, x.now, hit)])
    case InsertInvitation(t, i, hash, expiresIn) =>
      var x := s.txs[t];
      s.(txs := s.txs[t := CreateInserted(x.account, x.tenant, x.now, x.expired, i, hash, x.now + expiresIn)])
    case CommitCreate(t) =>
      var x := s.txs[t];
      var cleared := if x.expired.Some?
                     then s.invitations[x.expired.value := MarkedExpired(s.invitations[x.expired.value])]
                     else s.invitations;
      s.(invitations := cleared[x.inv := NewInvitation(x.account, x.tenant, x.hash, x.expiresAt)],
         txs := s.txs - {t})
    case ReadForRevoke(t, i, now) => s.(txs := s.txs[t := RevokeRead(i, now)])
    case MarkRevoked(t) =>
      var x := s.txs[t];
      s.(txs := if s.invitations[x.inv].state == Pending then s.txs[t := RevokeMarked(x.inv, x.now)]
                else s.txs - {t})
    case CommitRevoke(t) =>
      var x := s.txs[t];
      s.(invitations := s.invitations[x.inv := MarkedRevoked(s.invitations[x.inv], x.now)],
         txs := s.txs - {t})
    case Drop(t) => s.(txs := s.txs - {t})
  }

  ghost predicate Next(s: Sys, step: Step, s': Sys) {
    Enabled(s, step) && s' == Apply(s, step)
  }

  ghost predicate Run(states: seq<Sys>, steps: seq<Step>) {
    && |states| == |steps| + 1
    && states[0] == Empty
    && forall k :: 0 <= k < |steps| ==> Next(states[k], steps[k], states[k + 1])
  }

  // ---- What a step does, one row or transaction at a time ----

  ghost predicate RowMoved(s: Sys, step: Step, i: InvitationId, before: Invitation, after: Invitation) {
    || (step.CommitAccept? && step.tx in s.txs && s.txs[step.tx].Marked? && s.txs[step.tx].inv == i
        && after == MarkedAccepted(before, s.txs[step.tx].now))
    || (step.CommitCreate? && step.tx in s.txs && s.txs[step.tx].CreateInserted?
        && s.txs[step.tx].expired == Some(i) && after == MarkedExpired(before))
    || (step.CommitRevoke? && step.tx in s.txs && s.txs[step.tx].RevokeMarked? && s.txs[step.tx].inv == i
        && after == MarkedRevoked(before, s.txs[step.tx].now))
  }

  predicate Commits(step: Step) {
    step.CommitAccept? || step.CommitCreate? || step.CommitRevoke?
  }

  lemma InvitationEffect(s: Sys, step: Step, i: InvitationId)
    requires Enabled(s, step) && i in s.invitations
    requires step.CommitCreate? ==> s.txs[step.tx].inv != i
    ensures var s' := Apply(s, step);
            i in s'.invitations
            && (s'.invitations[i] == s.invitations[i] || RowMoved(s, step, i, s.invitations[i], s'.invitations[i]))
            && (step.CommitAccept? && s.txs[step.tx].inv == i ==> s'.invitations[i].state == Accepted)
  {
  }

  lemma NewInvitationEffect(s: Sys, step: Step, i: InvitationId)
    requires Enabled(s, step) && i !in s.invitations && i in Apply(s, step).invitations
    ensures step.CommitCreate? && step.tx in s.txs && s.txs[step.tx].CreateInserted? && s.txs[step.tx].inv == i
            && Apply(s, step).invitations[i] == NewInvitation(s.txs[step.tx].account, s.txs[step.tx].tenant,
                                                              s.txs[step.tx].hash, s.txs[step.tx].expiresAt)
  {
  }

  lemma AccountEffect(s: Sys, step: Step, a: AccountId)
    requires Enabled(s, step) && a in Apply(s, step).accounts
    ensures var s' := Apply(s, step);
            if a in s.accounts then
              s'.accounts[a].tenant == s.accounts[a].tenant
              && (s'.accounts[a] == s.accounts[a]
                  || (step.CommitAccept? && step.tx in s.txs && s.txs[step.tx].Marked?
                      && s.txs[step.tx].account == a
                      && s'.accounts[a].identity == Some(s.txs[step.tx].identity)))
            else s'.accounts[a].identity.None?
  {
  }

  lemma AccountsStay(s: Sys, step: Step)
    requires Enabled(s, step)
    ensures s.accounts.Keys <= Apply(s, step).accounts.Keys
    ensures step.CommitAccept? ==> step.tx in s.txs && s.txs[step.tx].Marked? && s.txs[step.tx].account in s.accounts
                                   && s.txs[step.tx].inv in s.invitations
                                   && Apply(s, step).accounts[s.txs[step.tx].account].identity.Some?
  {
  }

  /** The next stage of the step's own transaction. */
  ghost predicate TxMoved(s: Sys, step: Step, after: Tx) {
    match step
    case Resolve(_, i, _, identity, now) =>
      i in s.invitations && ObservedState(s.invitations[i], now) == Pending && after == Resolved(i, identity, now)
    case CheckAccount(t) =>
      t in s.txs && s.txs[t].Resolved? && s.txs[t].inv in s.invitations
      && s.invitations[s.txs[t].inv].account in s.accounts
      && s.accounts[s.invitations[s.txs[t].inv].account].identity.None?
      && after == Checked(s.txs[t].inv, s.invitations[s.txs[t].inv].account, s.txs[t].identity, s.txs[t].now)
    case Link(t) =>
      t in s.txs && s.txs[t].Checked? && s.txs[t].account in s.accounts && AccountFree(s, t, s.txs[t].account)
      && IdentityFree(s, t, s.txs[t].account, s.txs[t].identity)
      && after == Linked(s.txs[t].inv, s.txs[t].account, s.txs[t].identity, s.txs[t].now)
    case MarkAccepted(t) =>
      t in s.txs && s.txs[t].Linked? && s.txs[t].inv in s.invitations && InvitationFree(s, t, s.txs[t].inv)
      && s.invitations[s.txs[t].inv].state == Pending
      && after == Marked(s.txs[t].inv, s.txs[t].account, s.txs[t].identity, s.txs[t].now)
    case BeginCreate(_, a, tenant, now) =>
      a in s.accounts && s.accounts[a].tenant == tenant && after == CreateChecked(a, tenant, now)
    case ClearDue(t, hit) =>
      t in s.txs && s.txs[t].CreateChecked?
      && (hit.Some? ==> hit.value in s.invitations && Due(s.invitations[hit.value], s.txs[t].account, s.txs[t].now)
                        && InvitationFree(s, t, hit.value))
      && after == CreateCleared(s.txs[t].account, s.txs[t].tenant, s.txs[t].now, hit)
    case InsertInvitation(t, i, hash, _) =>
      t in s.txs && s.txs[t].CreateCleared? && IdUnused(s, i) && HashFree(s, hash)
      && PendingSlotFree(s, t, s.txs[t].account, s.txs[t].expired)
      && after.CreateInserted? && after.account == s.txs[t].account && after.tenant == s.txs[t].tenant
      && after.expired == s.txs[t].expired && after.inv == i && after.hash == hash
    case ReadForRevoke(_, i, now) => after == RevokeRead(i, now)
    case MarkRevoked(t) =>
      t in s.txs && s.txs[t].RevokeRead? && s.txs[t].inv in s.invitations && InvitationFree(s, t, s.txs[t].inv)
      && s.invitations[s.txs[t].inv].state == Pending && after == RevokeMarked(s.txs[t].inv, s.txs[t].now)
    case _ => false
  }

  /** A transaction other than the step's own stays as it is; a finished one is gone. */
  lemma TxEffect(s: Sys, step: Step, t: TxId)
    requires Enabled(s, step) && t in Apply(s, step).txs
    ensures (t in s.txs && Apply(s, step).txs[t] == s.txs[t])
            || (!step.AddAccount? && !Commits(step) && step.tx == t && TxMoved(s, step, Apply(s, step).txs[t]))
    ensures Commits(step) ==> t != step.tx && step.tx in s.txs
  {
  }

  // ---- What every interleaving keeps ----

  ghost predicate Stored(s: Sys) {
    InvitationsOk(s.accounts, s.invitations) && IdentitiesUnique(s.accounts)
  }

  ghost predicate HasAccepted(s: Sys, a: AccountId) {
    exists i :: i in s.invitations && s.invitations[i].account == a && s.invitations[i].state == Accepted
  }

  /** Linked means one accepted invitation, unlinked means none. */
  ghost predicate LinkedByInvitation(s: Sys) {
    && (forall a :: a in s.accounts ==> (s.accounts[a].identity.Some? <==> HasAccepted(s, a)))
    && (forall i, j :: i in s.invitations && j in s.invitations && i != j
                       && s.invitations[i].state == Accepted && s.invitations[j].state == Accepted
                 ==> s.invitations[i].account != s.invitations[j].account)
  }

  ghost predicate Locks(s: Sys) {
    && (forall t, o, a :: t in s.txs && o in s.txs && t != o && HoldsAccount(s.txs[t], a)
                 ==> !HoldsAccount(s.txs[o], a))
    && (forall t, o, i :: t in s.txs && o in s.txs && t != o && HoldsInvitation(s.txs[t], i)
                 ==> !HoldsInvitation(s.txs[o], i))
  }

  ghost predicate HeldPending(s: Sys) {
    forall t, i :: t in s.txs && HoldsInvitation(s.txs[t], i) ==>
      i in s.invitations && s.invitations[i].state == Pending
  }

  predicate Accepting(t: Tx) {
    t.Checked? || t.Linked? || t.Marked?
  }

  ghost predicate AcceptOk(s: Sys, t: Tx) {
    && ((t.Resolved? || Accepting(t)) ==> t.inv in s.invitations && t.now < s.invitations[t.inv].expiresAt)
    && (Accepting(t) ==>
          && t.account == s.invitations[t.inv].account && t.account in s.accounts
          // The account was read after the invitation: if somebody has linked it
          // since, this transaction's invitation is spent.
          && (s.accounts[t.account].identity.Some? ==> s.invitations[t.inv].state != Pending))
    && (t.Linked? || t.Marked? ==> !IdentityTaken(s.accounts, t.account, t.identity))
  }

  ghost predicate CreateOk(s: Sys, t: Tx) {
    && ((t.CreateChecked? || t.CreateCleared? || t.CreateInserted?) ==>
          t.account in s.accounts && s.accounts[t.account].tenant == t.tenant)
    && ((t.CreateCleared? || t.CreateInserted?) && t.expired.Some? ==>
          t.expired.value in s.invitations && s.invitations[t.expired.value].account == t.account)
    && (t.CreateInserted? ==>
          t.inv !in s.invitations && HashUnused(s.invitations, t.hash) && NoOtherPending(s, t.account, t.expired))
  }

  ghost predicate Accepts(s: Sys) {
    && (forall t :: t in s.txs ==> AcceptOk(s, s.txs[t]))
    && (forall t, o :: t in s.txs && o in s.txs && t != o
                       && (s.txs[t].Linked? || s.txs[t].Marked?) && (s.txs[o].Linked? || s.txs[o].Marked?)
                       && s.txs[t].account in s.accounts && s.txs[o].account in s.accounts
                       && s.accounts[s.txs[t].account].tenant == s.accounts[s.txs[o].account].tenant
                 ==> s.txs[t].identity != s.txs[o].identity)
  }

  ghost predicate Creates(s: Sys) {
    && (forall t :: t in s.txs ==> CreateOk(s, s.txs[t]))
    && (forall t, o :: t in s.txs && o in s.txs && t != o && s.txs[t].CreateInserted? && s.txs[o].CreateInserted?
                 ==> s.txs[t].inv != s.txs[o].inv && s.txs[t].hash != s.txs[o].hash
                     && s.txs[t].account != s.txs[o].account)
  }

  ghost predicate Inv(s: Sys) {
    Stored(s) && LinkedByInvitation(s) && Locks(s) && HeldPending(s) && Accepts(s) && Creates(s)
  }

  // ---- Stored rows ----

  /** A row's account, tenant and expiry never change, and it leaves Pending once. */
  ghost predicate RowForward(a: Invitation, b: Invitation) {
    && a.account == b.account && a.tenant == b.tenant && a.expiresAt == b.expiresAt
    && (a.state != Pending ==> b == a)
    && (b.state == Pending ==> b == a)
  }

  lemma RowsForward(s: Sys, step: Step, i: InvitationId)
    requires HeldPending(s) && Creates(s) && Enabled(s, step) && i in s.invitations
    ensures var s' := Apply(s, step);
            i in s'.invitations && RowForward(s.invitations[i], s'.invitations[i])
            && (s'.invitations[i] == s.invitations[i] || RowMoved(s, step, i, s.invitations[i], s'.invitations[i]))
            && ((step.CommitAccept? && step.tx in s.txs && s.txs[step.tx].Marked? && s.txs[step.tx].inv == i)
                ==> s'.invitations[i].state == Accepted)
  {
    if step.CommitCreate? {
      CommitterOf(s, step);
      assert CreateOk(s, s.txs[step.tx]);
    }
    InvitationEffect(s, step, i);
    hide Enabled, Apply, CreateOk;
    if Commits(step) && step.tx in s.txs {
      assert HoldsInvitation(s.txs[step.tx], i) ==> s.invitations[i].state == Pending;
    }
  }

  lemma CommitterOf(s: Sys, step: Step)
    requires Enabled(s, step) && Commits(step)
    ensures step.tx in s.txs
            && (step.CommitCreate? ==> s.txs[step.tx].CreateInserted?)
            && (step.CommitAccept? ==> s.txs[step.tx].Marked?)
            && (step.CommitRevoke? ==> s.txs[step.tx].RevokeMarked?)
  {
  }

  lemma RowOkKept(s: Sys, step: Step, i: InvitationId)
    requires Stored(s) && HeldPending(s) && Accepts(s) && Creates(s) && Enabled(s, step)
    requires i in Apply(s, step).invitations
    ensures InvitationOk(Apply(s, step).invitations[i])
  {
    hide Enabled, Apply, HashesUnique, OnePending, IdentitiesUnique, AccountsExist, CreateOk;
    if i in s.invitations {
      RowsForward(s, step, i);
      if Commits(step) && step.tx in s.txs {
        assert AcceptOk(s, s.txs[step.tx]);
        assert HoldsInvitation(s.txs[step.tx], i) ==> s.invitations[i].state == Pending;
      }
    } else {
      NewInvitationEffect(s, step, i);
    }
  }

  lemma HashesKept(s: Sys, step: Step)
    requires Stored(s) && HeldPending(s) && Creates(s) && Enabled(s, step)
    ensures HashesUnique(Apply(s, step).invitations)
  {
    hide Enabled, Apply, OnePending, IdentitiesUnique, AccountsExist;
    var rows, rows' := s.invitations, Apply(s, step).invitations;
    forall i, j | i in rows' && j in rows' && i != j && rows'[i].hash.Some? ensures rows'[i].hash != rows'[j].hash {
      RowOrigin(s, step, i);
      RowOrigin(s, step, j);
    }
  }

  /** A row after the step is an old one with the hash it had or none, or the one a
      create has just committed. */
  lemma RowOrigin(s: Sys, step: Step, i: InvitationId)
    requires Stored(s) && HeldPending(s) && Creates(s) && Enabled(s, step) && i in Apply(s, step).invitations
    ensures var row := Apply(s, step).invitations[i];
            if i in s.invitations then
              (row.hash == None || row.hash == s.invitations[i].hash) && RowForward(s.invitations[i], row)
            else
              step.CommitCreate? && step.tx in s.txs && s.txs[step.tx].CreateInserted? && s.txs[step.tx].inv == i
              && row == NewInvitation(s.txs[step.tx].account, s.txs[step.tx].tenant, s.txs[step.tx].hash,
                                      s.txs[step.tx].expiresAt)
              && HashUnused(s.invitations, s.txs[step.tx].hash)
              && NoOtherPending(s, s.txs[step.tx].account, s.txs[step.tx].expired)
              && s.txs[step.tx].account in s.accounts
              && s.accounts[s.txs[step.tx].account].tenant == s.txs[step.tx].tenant
  {
    hide Enabled, Apply, Stored;
    if i in s.invitations {
      RowsForward(s, step, i);
    } else {
      NewInvitationEffect(s, step, i);
      assert CreateOk(s, s.txs[step.tx]);
    }
  }

  lemma OnePendingKept(s: Sys, step: Step)
    requires Stored(s) && HeldPending(s) && Creates(s) && Enabled(s, step)
    ensures OnePending(Apply(s, step).invitations)
  {
    hide Enabled, Apply, HashesUnique, IdentitiesUnique, AccountsExist, HashUnused;
    var rows, rows' := s.invitations, Apply(s, step).invitations;
    forall i, j | i in rows' && j in rows' && i != j && rows'[i].state == Pending && rows'[j].state == Pending
      ensures rows'[i].account != rows'[j].account
    {
      RowOrigin(s, step, i);
      RowOrigin(s, step, j);
      if i !in rows {
        ExpiredRowLeaves(s, step, j);
      }
      if j !in rows {
        ExpiredRowLeaves(s, step, i);
      }
    }
  }

  /** The row a create expired is not pending after its commit. */
  lemma ExpiredRowLeaves(s: Sys, step: Step, i: InvitationId)
    requires Enabled(s, step) && step.CommitCreate? && i in s.invitations && s.txs[step.tx].CreateInserted?
    requires s.txs[step.tx].inv != i
    ensures s.txs[step.tx].expired == Some(i) ==> i in Apply(s, step).invitations
                                                  && Apply(s, step).invitations[i].state == Expired
  {
  }

  lemma AccountsExistKept(s: Sys, step: Step)
    requires Stored(s) && HeldPending(s) && Creates(s) && Enabled(s, step)
    ensures AccountsExist(Apply(s, step).accounts, Apply(s, step).invitations)
  {
    hide Enabled, Apply, HashesUnique, IdentitiesUnique, OnePending, HashUnused, NoOtherPending;
    var s' := Apply(s, step);
    AccountsStay(s, step);
    forall i | i in s'.invitations
      ensures s'.invitations[i].account in s'.accounts
              && s'.accounts[s'.invitations[i].account].tenant == s'.invitations[i].tenant
    {
      RowOrigin(s, step, i);
      AccountEffect(s, step, s'.invitations[i].account);
    }
  }

  lemma IdentitiesKept(s: Sys, step: Step)
    requires Stored(s) && Accepts(s) && Enabled(s, step)
    ensures IdentitiesUnique(Apply(s, step).accounts)
  {
  }

  lemma StoredKept(s: Sys, step: Step)
    requires Stored(s) && HeldPending(s) && Accepts(s) && Creates(s) && Enabled(s, step)
    ensures Stored(Apply(s, step))
  {
    HashesKept(s, step);
    OnePendingKept(s, step);
    AccountsExistKept(s, step);
    IdentitiesKept(s, step);
    hide Enabled, Apply, HashesUnique, OnePending, IdentitiesUnique, AccountsExist, HeldPending, Accepts, Creates,
         InvitationOk;
    forall i | i in Apply(s, step).invitations ensures InvitationOk(Apply(s, step).invitations[i]) {
      RowOkKept(s, step, i);
    }
  }

  // ---- Linked accounts and accepted invitations ----

  /** The account of an acceptance about to commit is still unlinked: its invitation
      is pending under the lock. */
  lemma CommitterUnlinked(s: Sys, t: TxId)
    requires HeldPending(s) && Accepts(s) && t in s.txs && s.txs[t].Marked?
    ensures s.txs[t].inv in s.invitations && s.invitations[s.txs[t].inv].state == Pending
            && s.txs[t].account == s.invitations[s.txs[t].inv].account
            && s.txs[t].account in s.accounts && s.accounts[s.txs[t].account].identity.None?
  {
  }

  /** Only committing an acceptance adds an accepted row, and only its own. */
  lemma AcceptedRows(s: Sys, step: Step, i: InvitationId)
    requires HeldPending(s) && Creates(s) && Enabled(s, step) && i in Apply(s, step).invitations
    ensures Apply(s, step).invitations[i].state == Accepted <==>
              (i in s.invitations && s.invitations[i].state == Accepted)
              || (step.CommitAccept? && step.tx in s.txs && s.txs[step.tx].Marked? && s.txs[step.tx].inv == i
                  && i in s.invitations)
    ensures i in s.invitations ==> Apply(s, step).invitations[i].account == s.invitations[i].account
  {
  }

  lemma LinkedByInvitationKept(s: Sys, step: Step)
    requires Stored(s) && LinkedByInvitation(s) && HeldPending(s) && Accepts(s) && Creates(s) && Enabled(s, step)
    ensures LinkedByInvitation(Apply(s, step))
  {
    hide Enabled, Apply, Stored, HeldPending, Accepts, Creates;
    var s' := Apply(s, step);
    forall a | a in s'.accounts ensures s'.accounts[a].identity.Some? <==> HasAccepted(s', a) {
      LinkedIffAccepted(s, step, a);
    }
    forall i, j | i in s'.invitations && j in s'.invitations && i != j
                  && s'.invitations[i].state == Accepted && s'.invitations[j].state == Accepted
      ensures s'.invitations[i].account != s'.invitations[j].account
    {
      AcceptedRows(s, step, i);
      AcceptedRows(s, step, j);
      if step.CommitAccept? && step.tx in s.txs && s.txs[step.tx].Marked? {
        CommitterUnlinked(s, step.tx);
      }
    }
  }

  lemma LinkedIffAccepted(s: Sys, step: Step, a: AccountId)
    requires Stored(s) && LinkedByInvitation(s) && HeldPending(s) && Accepts(s) && Creates(s) && Enabled(s, step)
    requires a in Apply(s, step).accounts
    ensures Apply(s, step).accounts[a].identity.Some? <==> HasAccepted(Apply(s, step), a)
  {
    var s' := Apply(s, step);
    AccountsStay(s, step);
    hide Enabled, Apply, HeldPending, Accepts, Creates, HashesUnique, OnePending, IdentitiesUnique;
    AccountEffect(s, step, a);
    forall i | i in s.invitations ensures i in s'.invitations {
      RowsForward(s, step, i);
    }
    forall i | i in s'.invitations
      ensures s'.invitations[i].state == Accepted && s'.invitations[i].account == a <==>
                (i in s.invitations && s.invitations[i].account == a && s.invitations[i].state == Accepted)
                || (step.CommitAccept? && step.tx in s.txs && s.txs[step.tx].Marked? && s.txs[step.tx].inv == i
                    && s.txs[step.tx].account == a)
    {
      AcceptedRows(s, step, i);
      if step.CommitAccept? && step.tx in s.txs && s.txs[step.tx].Marked? {
        CommitterUnlinked(s, step.tx);
      }
    }
    if step.CommitAccept? {
      CommitterUnlinked(s, step.tx);
      assert s.txs[step.tx].inv in s'.invitations;
    }
  }

  // ---- Locks ----

  lemma LocksGained(s: Sys, step: Step, t: TxId)
    requires Enabled(s, step) && t in Apply(s, step).txs
    ensures forall a :: HoldsAccount(Apply(s, step).txs[t], a) ==>
              (t in s.txs && HoldsAccount(s.txs[t], a))
              || (!step.AddAccount? && step.tx == t && AccountFree(s, t, a))
    ensures forall i :: HoldsInvitation(Apply(s, step).txs[t], i) ==>
              (t in s.txs && HoldsInvitation(s.txs[t], i))
              || (!step.AddAccount? && step.tx == t && !Commits(step) && InvitationFree(s, t, i)
                  && i in s.invitations && s.invitations[i].state == Pending)
  {
  }

  lemma LocksKept(s: Sys, step: Step)
    requires Locks(s) && Enabled(s, step)
    ensures Locks(Apply(s, step))
  {
    hide Enabled, Apply, HoldsAccount, HoldsInvitation;
    var s' := Apply(s, step);
    forall t, o | t in s'.txs && o in s'.txs && t != o
      ensures forall a :: HoldsAccount(s'.txs[t], a) ==> !HoldsAccount(s'.txs[o], a)
      ensures forall i :: HoldsInvitation(s'.txs[t], i) ==> !HoldsInvitation(s'.txs[o], i)
    {
      LocksGained(s, step, t);
      LocksGained(s, step, o);
    }
  }

  lemma HeldPendingKept(s: Sys, step: Step)
    requires Locks(s) && HeldPending(s) && Creates(s) && Enabled(s, step)
    ensures HeldPending(Apply(s, step))
  {
    hide Enabled, Apply, Creates;
    var s' := Apply(s, step);
    forall t, i | t in s'.txs && HoldsInvitation(s'.txs[t], i)
      ensures i in s'.invitations && s'.invitations[i].state == Pending
    {
      LocksGained(s, step, t);
      TxEffect(s, step, t);
      RowsForward(s, step, i);
      if Commits(step) {
        assert !HoldsInvitation(s.txs[step.tx], i);
      }
    }
  }

  // ---- Open acceptances ----

  lemma ResolvedKept(s: Sys, step: Step, t: TxId)
    requires Stored(s) && HeldPending(s) && Accepts(s) && Creates(s) && Enabled(s, step) && t in Apply(s, step).txs
    ensures var s' := Apply(s, step);
            var x := s'.txs[t];
            && ((x.Resolved? || Accepting(x)) ==> x.inv in s'.invitations && x.now < s'.invitations[x.inv].expiresAt)
            && (Accepting(x) ==> x.account == s'.invitations[x.inv].account && x.account in s'.accounts)
  {
    hide Enabled, Apply, Stored, HeldPending, Creates, AccountFree, InvitationFree, IdentityFree, IdUnused, HashFree,
         PendingSlotFree;
    TxEffect(s, step, t);
    AccountsStay(s, step);
    var x := Apply(s, step).txs[t];
    if t in s.txs {
      assert AcceptOk(s, s.txs[t]);
    }
    if x.Resolved? || Accepting(x) {
      RowsForward(s, step, x.inv);
    }
  }

  /** Somebody linked the account after this transaction had read it unlinked: its
      own invitation cannot be pending any more, whichever invitation was used. */
  lemma LinkedElsewhere(s: Sys, step: Step, t: TxId)
    requires Stored(s) && HeldPending(s) && Accepts(s) && Creates(s) && Enabled(s, step)
    requires t in Apply(s, step).txs && Accepting(Apply(s, step).txs[t])
    ensures var s' := Apply(s, step);
            var x := s'.txs[t];
            x.account in s'.accounts && x.inv in s'.invitations
            && (s'.accounts[x.account].identity.Some? ==> s'.invitations[x.inv].state != Pending)
  {
    ResolvedKept(s, step, t);
    hide Enabled, Apply, HeldPending, Creates, AccountFree, InvitationFree, IdentityFree, IdUnused, HashFree,
         PendingSlotFree, HashesUnique, IdentitiesUnique, AccountsExist;
    var x := Apply(s, step).txs[t];
    TxEffect(s, step, t);
    assert t in s.txs && AcceptOk(s, s.txs[t]);
    AccountEffect(s, step, x.account);
    RowsForward(s, step, x.inv);
    if step.CommitAccept? && step.tx in s.txs && s.txs[step.tx].Marked? {
      CommitterUnlinked(s, step.tx);
    }
  }

  lemma IdentityStaysFree(s: Sys, step: Step, t: TxId)
    requires Accepts(s) && Enabled(s, step) && t in Apply(s, step).txs
    requires (Apply(s, step).txs[t].Linked? || Apply(s, step).txs[t].Marked?)
    requires Apply(s, step).txs[t].account in Apply(s, step).accounts
    ensures !IdentityTaken(Apply(s, step).accounts, Apply(s, step).txs[t].account, Apply(s, step).txs[t].identity)
  {
    hide Enabled, Apply, AccountFree, InvitationFree, IdUnused, HashFree, PendingSlotFree;
    var s' := Apply(s, step);
    var x := s'.txs[t];
    TxEffect(s, step, t);
    AccountEffect(s, step, x.account);
    assert t in s.txs && AcceptOk(s, s.txs[t]);
    forall b | b in s'.accounts && b != x.account && s'.accounts[b].tenant == s'.accounts[x.account].tenant
      ensures s'.accounts[b].identity != Some(x.identity)
    {
      AccountEffect(s, step, b);
    }
  }

  lemma IdentitiesInFlightKept(s: Sys, step: Step, t: TxId, o: TxId)
    requires Accepts(s) && Enabled(s, step) && t in Apply(s, step).txs && o in Apply(s, step).txs && t != o
    requires var x, y := Apply(s, step).txs[t], Apply(s, step).txs[o];
             (x.Linked? || x.Marked?) && (y.Linked? || y.Marked?)
             && x.account in Apply(s, step).accounts && y.account in Apply(s, step).accounts
             && Apply(s, step).accounts[x.account].tenant == Apply(s, step).accounts[y.account].tenant
    ensures Apply(s, step).txs[t].identity != Apply(s, step).txs[o].identity
  {
    hide Enabled, Apply, AccountFree, InvitationFree, IdUnused, HashFree, PendingSlotFree, IdentityTaken;
    TxEffect(s, step, t);
    TxEffect(s, step, o);
    assert t in s.txs && AcceptOk(s, s.txs[t]) && o in s.txs && AcceptOk(s, s.txs[o]);
    AccountEffect(s, step, Apply(s, step).txs[t].account);
    AccountEffect(s, step, Apply(s, step).txs[o].account);
  }

  lemma AcceptsKept(s: Sys, step: Step)
    requires Stored(s) && HeldPending(s) && Accepts(s) && Creates(s) && Enabled(s, step)
    ensures Accepts(Apply(s, step))
  {
    hide Enabled, Apply, Stored, HeldPending, Creates, IdentityTaken;
    var s' := Apply(s, step);
    forall t | t in s'.txs ensures AcceptOk(s', s'.txs[t]) {
      ResolvedKept(s, step, t);
      if Accepting(s'.txs[t]) {
        LinkedElsewhere(s, step, t);
        if !s'.txs[t].Checked? {
          IdentityStaysFree(s, step, t);
        }
      }
    }
    forall t, o | t in s'.txs && o in s'.txs && t != o
                  && (s'.txs[t].Linked? || s'.txs[t].Marked?) && (s'.txs[o].Linked? || s'.txs[o].Marked?)
                  && s'.txs[t].account in s'.accounts && s'.txs[o].account in s'.accounts
                  && s'.accounts[s'.txs[t].account].tenant == s'.accounts[s'.txs[o].account].tenant
      ensures s'.txs[t].identity != s'.txs[o].identity
    {
      hide Accepts;
      IdentitiesInFlightKept(s, step, t, o);
    }
  }

  // ---- Open creates ----

  lemma CreateAccountKept(s: Sys, step: Step, t: TxId)
    requires Stored(s) && HeldPending(s) && Creates(s) && Enabled(s, step) && t in Apply(s, step).txs
    ensures var s' := Apply(s, step);
            var x := s'.txs[t];
            && ((x.CreateChecked? || x.CreateCleared? || x.CreateInserted?) ==>
                  x.account in s'.accounts && s'.accounts[x.account].tenant == x.tenant)
            && ((x.CreateCleared? || x.CreateInserted?) && x.expired.Some? ==>
                  x.expired.value in s'.invitations && s'.invitations[x.expired.value].account == x.account)
  {
    hide Enabled, Apply, Stored, HeldPending, AccountFree, InvitationFree, IdentityFree, IdUnused, HashFree,
         PendingSlotFree, HashUnused, NoOtherPending;
    var x := Apply(s, step).txs[t];
    TxEffect(s, step, t);
    AccountsStay(s, step);
    if t in s.txs {
      assert CreateOk(s, s.txs[t]);
    }
    if x.CreateChecked? || x.CreateCleared? || x.CreateInserted? {
      AccountEffect(s, step, x.account);
    }
    if (x.CreateCleared? || x.CreateInserted?) && x.expired.Some? {
      RowsForward(s, step, x.expired.value);
    }
  }

  lemma CreateRowKept(s: Sys, step: Step, t: TxId)
    requires Stored(s) && HeldPending(s) && Creates(s) && Enabled(s, step)
    requires t in Apply(s, step).txs && Apply(s, step).txs[t].CreateInserted?
    ensures var s' := Apply(s, step);
            var x := s'.txs[t];
            x.inv !in s'.invitations && HashUnused(s'.invitations, x.hash) && NoOtherPending(s', x.account, x.expired)
  {
    hide Enabled, Apply, Stored, HeldPending, AccountFree, InvitationFree, IdentityFree;
    var s' := Apply(s, step);
    var x := s'.txs[t];
    TxEffect(s, step, t);
    if t in s.txs && s.txs[t].CreateInserted? {
      assert CreateOk(s, s.txs[t]);
    }
    forall j | j in s'.invitations
      ensures j != x.inv && s'.invitations[j].hash != Some(x.hash)
              && (s'.invitations[j].account == x.account && s'.invitations[j].state == Pending ==> x.expired == Some(j))
    {
      RowOrigin(s, step, j);
    }
  }

  lemma CreatesKept(s: Sys, step: Step)
    requires Stored(s) && HeldPending(s) && Creates(s) && Enabled(s, step)
    ensures Creates(Apply(s, step))
  {
    hide Enabled, Apply, Stored, HeldPending, HashUnused, NoOtherPending, Creates;
    var s' := Apply(s, step);
    forall t | t in s'.txs ensures CreateOk(s', s'.txs[t]) {
      CreateAccountKept(s, step, t);
      if s'.txs[t].CreateInserted? {
        CreateRowKept(s, step, t);
      }
    }
    CreatesApart(s, step);
    CreatesFrom(s');
  }

  lemma CreatesFrom(s: Sys)
    requires forall t :: t in s.txs ==> CreateOk(s, s.txs[t])
    requires InsertsApart(s)
    ensures Creates(s)
  {
  }

  ghost predicate InsertsApart(s: Sys) {
    forall t, o :: t in s.txs && o in s.txs && t != o && s.txs[t].CreateInserted? && s.txs[o].CreateInserted?
      ==> s.txs[t].inv != s.txs[o].inv && s.txs[t].hash != s.txs[o].hash && s.txs[t].account != s.txs[o].account
  }

  lemma CreatesApart(s: Sys, step: Step)
    requires Creates(s) && Enabled(s, step)
    ensures InsertsApart(Apply(s, step))
  {
    hide Enabled, Apply, AccountFree, InvitationFree, IdentityFree, CreateOk, HashUnused, NoOtherPending;
    var s' := Apply(s, step);
    forall t, o | t in s'.txs && o in s'.txs && t != o && s'.txs[t].CreateInserted? && s'.txs[o].CreateInserted?
      ensures s'.txs[t].inv != s'.txs[o].inv && s'.txs[t].hash != s'.txs[o].hash
              && s'.txs[t].account != s'.txs[o].account
    {
      TxEffect(s, step, t);
      TxEffect(s, step, o);
    }
  }

  // ---- Every reachable state ----

  lemma InvKept(s: Sys, step: Step, s': Sys)
    requires Inv(s) && Next(s, step, s')
    ensures Inv(s')
  {
    hide Stored, LinkedByInvitation, Locks, HeldPending, Accepts, Creates, Apply, Enabled;
    StoredKept(s, step);
    LinkedByInvitationKept(s, step);
    LocksKept(s, step);
    HeldPendingKept(s, step);
    AcceptsKept(s, step);
    CreatesKept(s, step);
  }

  lemma NothingBreaksInv(s: Sys)
    requires s.accounts.Keys == {} && s.invitations.Keys == {} && s.txs.Keys == {}
    ensures Inv(s)
  {
  }

  lemma {:induction false} InvHolds(states: seq<Sys>, steps: seq<Step>, n: nat)
    requires Run(states, steps) && n <= |steps|
    ensures Inv(states[n])
  {
    hide Inv, Next;
    if n == 0 {
      NothingBreaksInv(Empty);
    } else {
      InvHolds(states, steps, n - 1);
      assert Next(states[n - 1], steps[n - 1], states[n - 1 + 1]);
      InvKept(states[n - 1], steps[n - 1], states[n]);
    }
  }
}
