/** Each invitation handler, left undisturbed, is one transaction of the protocol with
    the same effect. */
module InvitationHandlers {
  import opened Wrappers
  import opened Invitations
  import opened InvitationProtocol
  import opened Undisturbed

  function WithTx(s: Sys, t: TxId, x: Tx): Sys {
    s.(txs := s.txs[t := x])
  }

  // ---- Accept ----

  ghost predicate AcceptReady(s: Sys, t: TxId, i: InvitationId, hash: CodeHash, identity: Identity, now: Time) {
    && t !in s.txs && i in s.invitations && s.invitations[i].hash == Some(hash)
    && ObservedState(s.invitations[i], now) == Pending && InvitationFree(s, t, i)
    && var a := s.invitations[i].account;
       && a in s.accounts && s.accounts[a].tenant == s.invitations[i].tenant && s.accounts[a].identity.None?
       && AccountFree(s, t, a) && IdentityFree(s, t, a, identity)
  }

  /** The rows after an acceptance. */
  function AcceptedRows(s: Sys, i: InvitationId, identity: Identity, now: Time): Sys
    requires i in s.invitations && s.invitations[i].account in s.accounts
  {
    var a := s.invitations[i].account;
    s.(accounts := s.accounts[a := s.accounts[a].(identity := Some(identity))],
       invitations := s.invitations[i := MarkedAccepted(s.invitations[i], now)])
  }

  lemma AcceptReads(s: Sys, t: TxId, i: InvitationId, hash: CodeHash, identity: Identity, now: Time)
    requires AcceptReady(s, t, i, hash, identity, now)
    ensures var a := s.invitations[i].account;
            && Next(s, Resolve(t, i, hash, identity, now), WithTx(s, t, Resolved(i, identity, now)))
            && Next(WithTx(s, t, Resolved(i, identity, now)), CheckAccount(t), WithTx(s, t, Checked(i, a, identity, now)))
  {
    hide AccountFree, InvitationFree, IdentityFree;
    var x := WithTx(s, t, Resolved(i, identity, now));
    assert Apply(x, CheckAccount(t)) == WithTx(s, t, Checked(i, s.invitations[i].account, identity, now));
  }

  lemma AcceptLinks(s: Sys, t: TxId, i: InvitationId, hash: CodeHash, identity: Identity, now: Time)
    requires AcceptReady(s, t, i, hash, identity, now)
    ensures var a := s.invitations[i].account;
            Next(WithTx(s, t, Checked(i, a, identity, now)), Link(t), WithTx(s, t, Linked(i, a, identity, now)))
  {
    var a := s.invitations[i].account;
    var y := WithTx(s, t, Checked(i, a, identity, now));
    assert AccountFree(y, t, a) && IdentityFree(y, t, a, identity);
    assert Apply(y, Link(t)) == WithTx(s, t, Linked(i, a, identity, now));
  }

  lemma AcceptMarks(s: Sys, t: TxId, i: InvitationId, hash: CodeHash, identity: Identity, now: Time)
    requires AcceptReady(s, t, i, hash, identity, now)
    ensures var a := s.invitations[i].account;
            && Next(WithTx(s, t, Linked(i, a, identity, now)), Step.MarkAccepted(t), WithTx(s, t, Marked(i, a, identity, now)))
            && Next(WithTx(s, t, Marked(i, a, identity, now)), CommitAccept(t), AcceptedRows(s, i, identity, now))
  {
    hide AccountFree, IdentityFree;
    var a := s.invitations[i].account;
    var y := WithTx(s, t, Linked(i, a, identity, now));
    assert InvitationFree(y, t, i);
    assert Apply(y, Step.MarkAccepted(t)) == WithTx(s, t, Marked(i, a, identity, now));
    assert WithTx(s, t, Marked(i, a, identity, now)).txs - {t} == s.txs;
  }

  lemma AcceptIsOneTransaction(s: Sys, t: TxId, i: InvitationId, hash: CodeHash, identity: Identity, now: Time)
    requires AcceptReady(s, t, i, hash, identity, now)
    ensures Leads(Next, s, [Resolve(t, i, hash, identity, now), CheckAccount(t), Link(t), Step.MarkAccepted(t)]
                           + [CommitAccept(t)],
                  AcceptedRows(s, i, identity, now))
  {
    var a := s.invitations[i].account;
    AcceptReads(s, t, i, hash, identity, now);
    AcceptLinks(s, t, i, hash, identity, now);
    AcceptMarks(s, t, i, hash, identity, now);
    hide Next, Leads;
    LeadsByFour(Next, s, Resolve(t, i, hash, identity, now), WithTx(s, t, Resolved(i, identity, now)),
                CheckAccount(t), WithTx(s, t, Checked(i, a, identity, now)),
                Link(t), WithTx(s, t, Linked(i, a, identity, now)),
                Step.MarkAccepted(t), WithTx(s, t, Marked(i, a, identity, now)));
    LeadsThen(Next, s, [Resolve(t, i, hash, identity, now), CheckAccount(t), Link(t), Step.MarkAccepted(t)],
              WithTx(s, t, Marked(i, a, identity, now)), CommitAccept(t), AcceptedRows(s, i, identity, now));
  }

  // ---- Revoke ----

  lemma RevokeIsOneTransaction(s: Sys, t: TxId, i: InvitationId, now: Time)
    requires t !in s.txs && i in s.invitations && ObservedState(s.invitations[i], now) == Pending
    requires InvitationFree(s, t, i)
    ensures Leads(Next, s, [ReadForRevoke(t, i, now), Step.MarkRevoked(t), CommitRevoke(t)],
                  s.(invitations := s.invitations[i := MarkedRevoked(s.invitations[i], now)]))
  {
    var a := WithTx(s, t, RevokeRead(i, now));
    var b := WithTx(s, t, RevokeMarked(i, now));
    assert Apply(a, Step.MarkRevoked(t)) == b;
    assert b.txs - {t} == s.txs;
    LeadsByThree(Next, s, ReadForRevoke(t, i, now), a, Step.MarkRevoked(t), b, CommitRevoke(t), Apply(b, CommitRevoke(t)));
  }

  // ---- Create ----

  /** The due row of an account, of which there is at most one. */
  ghost predicate IsDue(s: Sys, a: AccountId, now: Time, due: Option<InvitationId>) {
    match due
    case None => NothingDue(s, a, now)
    case Some(j) => j in s.invitations && Due(s.invitations[j], a, now)
  }

  lemma DueExpiredIsOneRow(s: Sys, a: AccountId, now: Time, due: Option<InvitationId>)
    requires OnePending(s.invitations) && IsDue(s, a, now, due)
    ensures DueExpired(s.invitations, a, now) ==
            if due.Some? then s.invitations[due.value := MarkedExpired(s.invitations[due.value])] else s.invitations
  {
  }

  ghost predicate CreateReady(s: Sys, t: TxId, a: AccountId, now: Time, due: Option<InvitationId>,
                              i: InvitationId, hash: CodeHash) {
    && t !in s.txs && a in s.accounts && s.accounts[a].identity.None?
    && OnePending(s.invitations) && IsDue(s, a, now, due) && (due.Some? ==> InvitationFree(s, t, due.value))
    && IdUnused(s, i) && HashFree(s, hash) && PendingSlotFree(s, t, a, due)
  }

  /** The rows after a create. */
  function CreatedRows(s: Sys, a: AccountId, now: Time, i: InvitationId, hash: CodeHash, expiresAt: Time): Sys
    requires a in s.accounts
  {
    s.(invitations := DueExpired(s.invitations, a, now)[i := NewInvitation(a, s.accounts[a].tenant, hash, expiresAt)])
  }

  lemma CreateClears(s: Sys, t: TxId, a: AccountId, now: Time, due: Option<InvitationId>)
    requires t !in s.txs && a in s.accounts && s.accounts[a].identity.None? && IsDue(s, a, now, due)
    requires due.Some? ==> InvitationFree(s, t, due.value)
    ensures var tenant := s.accounts[a].tenant;
            var x := WithTx(s, t, CreateChecked(a, tenant, now));
            && Next(s, BeginCreate(t, a, tenant, now), x)
            && Next(x, ClearDue(t, due), WithTx(s, t, CreateCleared(a, tenant, now, due)))
  {
    hide IdUnused, HashFree, PendingSlotFree;
    var x := WithTx(s, t, CreateChecked(a, s.accounts[a].tenant, now));
    if due.Some? {
      assert InvitationFree(x, t, due.value);
    } else {
      assert NothingDue(x, a, now);
    }
    assert Apply(x, ClearDue(t, due)) == WithTx(s, t, CreateCleared(a, s.accounts[a].tenant, now, due));
  }

  lemma CreateInserts(s: Sys, t: TxId, a: AccountId, now: Time, due: Option<InvitationId>,
                      i: InvitationId, hash: CodeHash, expiresIn: nat)
    requires CreateReady(s, t, a, now, due, i, hash)
    ensures var tenant := s.accounts[a].tenant;
            Next(WithTx(s, t, CreateCleared(a, tenant, now, due)), InsertInvitation(t, i, hash, expiresIn),
                 WithTx(s, t, CreateInserted(a, tenant, now, due, i, hash, now + expiresIn)))
  {
    var y := WithTx(s, t, CreateCleared(a, s.accounts[a].tenant, now, due));
    assert IdUnused(y, i) && HashFree(y, hash) && PendingSlotFree(y, t, a, due);
    assert Apply(y, InsertInvitation(t, i, hash, expiresIn))
        == WithTx(s, t, CreateInserted(a, s.accounts[a].tenant, now, due, i, hash, now + expiresIn));
  }

  lemma CreateCommits(s: Sys, t: TxId, a: AccountId, now: Time, due: Option<InvitationId>,
                      i: InvitationId, hash: CodeHash, expiresIn: nat)
    requires CreateReady(s, t, a, now, due, i, hash)
    ensures Next(WithTx(s, t, CreateInserted(a, s.accounts[a].tenant, now, due, i, hash, now + expiresIn)),
                 CommitCreate(t), CreatedRows(s, a, now, i, hash, now + expiresIn))
  {
    hide IdUnused, HashFree, PendingSlotFree, InvitationFree;
    DueExpiredIsOneRow(s, a, now, due);
    var z := WithTx(s, t, CreateInserted(a, s.accounts[a].tenant, now, due, i, hash, now + expiresIn));
    assert z.txs - {t} == s.txs;
    hide DueExpired, OnePending, IsDue;
  }

  lemma CreateIsOneTransaction(s: Sys, t: TxId, a: AccountId, now: Time, due: Option<InvitationId>,
                               i: InvitationId, hash: CodeHash, expiresIn: nat)
    requires CreateReady(s, t, a, now, due, i, hash)
    ensures Leads(Next, s, [BeginCreate(t, a, s.accounts[a].tenant, now), ClearDue(t, due),
                            InsertInvitation(t, i, hash, expiresIn), CommitCreate(t)],
                  CreatedRows(s, a, now, i, hash, now + expiresIn))
  {
    var tenant := s.accounts[a].tenant;
    CreateClears(s, t, a, now, due);
    CreateInserts(s, t, a, now, due, i, hash, expiresIn);
    CreateCommits(s, t, a, now, due, i, hash, expiresIn);
    hide Next, Leads;
    LeadsByFour(Next, s, BeginCreate(t, a, tenant, now), WithTx(s, t, CreateChecked(a, tenant, now)),
                ClearDue(t, due), WithTx(s, t, CreateCleared(a, tenant, now, due)),
                InsertInvitation(t, i, hash, expiresIn),
                WithTx(s, t, CreateInserted(a, tenant, now, due, i, hash, now + expiresIn)),
                CommitCreate(t), CreatedRows(s, a, now, i, hash, now + expiresIn));
  }
}
