/** User accounts, their invitations, and the uninterrupted handlers. */
module Invitations {
  import opened Wrappers

  type AccountId = nat
  type InvitationId = nat
  type TenantId = nat
  type CodeHash = string
  type Time = int

  datatype Identity = Identity(iss: string, sub: string)

  datatype InvitationState = Pending | Accepted | Revoked | Expired

  datatype InvitationError = NotFound | Conflict | Internal

  datatype Account = Account(tenant: TenantId, identity: Option<Identity>)

  datatype Invitation = Invitation(
    account: AccountId,
    tenant: TenantId,
    state: InvitationState,
    hash: Option<CodeHash>,
    expiresAt: Time,
    acceptedAt: Option<Time>,
    revokedAt: Option<Time>)

  function NewInvitation(account: AccountId, tenant: TenantId, hash: CodeHash, expiresAt: Time): Invitation {
    Invitation(account, tenant, Pending, Some(hash), expiresAt, None, None)
  }

  function ObservedState(row: Invitation, now: Time): InvitationState {
    if row.state == Pending && now >= row.expiresAt then Expired else row.state
  }

  function MarkedAccepted(row: Invitation, at: Time): Invitation {
    row.(state := Accepted, acceptedAt := Some(at), hash := None)
  }

  function MarkedRevoked(row: Invitation, at: Time): Invitation {
    row.(state := Revoked, revokedAt := Some(at), hash := None)
  }

  function MarkedExpired(row: Invitation): Invitation {
    row.(state := Expired, hash := None)
  }

  /** What the clearing UPDATE of a create matches: strictly past expiry. */
  predicate Due(row: Invitation, account: AccountId, now: Time) {
    row.account == account && row.state == Pending && row.expiresAt < now
  }

  /** The stored hash tells a pending row; the stamps tell how it ended. */
  predicate InvitationOk(row: Invitation) {
    && (row.hash.Some? <==> row.state == Pending)
    && (row.acceptedAt.Some? <==> row.state == Accepted)
    && (row.revokedAt.Some? <==> row.state == Revoked)
    && (row.acceptedAt.Some? ==> row.acceptedAt.value < row.expiresAt)
  }

  /** The unique index on the code hash. */
  ghost predicate HashesUnique(invitations: map<InvitationId, Invitation>) {
    forall i, j :: i in invitations && j in invitations && i != j && invitations[i].hash.Some?
                   ==> invitations[i].hash != invitations[j].hash
  }

  /** The partial unique index on the account of pending rows. */
  ghost predicate OnePending(invitations: map<InvitationId, Invitation>) {
    forall i, j :: i in invitations && j in invitations && i != j
                   && invitations[i].state == Pending && invitations[j].state == Pending
                   ==> invitations[i].account != invitations[j].account
  }

  /** The unique index on (tenant, iss, sub). */
  ghost predicate IdentitiesUnique(accounts: map<AccountId, Account>) {
    forall a, b :: a in accounts && b in accounts && a != b && accounts[a].identity.Some?
                   && accounts[a].tenant == accounts[b].tenant
                   ==> accounts[a].identity != accounts[b].identity
  }

  ghost predicate AccountsExist(accounts: map<AccountId, Account>, invitations: map<InvitationId, Invitation>) {
    forall i :: i in invitations ==>
      invitations[i].account in accounts && accounts[invitations[i].account].tenant == invitations[i].tenant
  }

  predicate IdentityTaken(accounts: map<AccountId, Account>, a: AccountId, identity: Identity)
    requires a in accounts
  {
    exists b :: b in accounts && b != a && accounts[b].tenant == accounts[a].tenant
                && accounts[b].identity == Some(identity)
  }

  function DueExpired(invitations: map<InvitationId, Invitation>, a: AccountId, now: Time)
    : map<InvitationId, Invitation>
  {
    map i | i in invitations :: if Due(invitations[i], a, now) then MarkedExpired(invitations[i]) else invitations[i]
  }

  /** The row meets neither of the two unique indices. */
  predicate Fits(invitations: map<InvitationId, Invitation>, row: Invitation) {
    forall j :: j in invitations ==>
      invitations[j].hash != row.hash
      && (invitations[j].state == Pending ==> invitations[j].account != row.account)
  }

  predicate HashUnused(invitations: map<InvitationId, Invitation>, hash: CodeHash) {
    forall j :: j in invitations ==> invitations[j].hash != Some(hash)
  }

  /** A new code makes room for itself exactly when every pending row of the account
      is strictly past its expiry. */
  lemma CreateFitsExactlyPastExpiry(invitations: map<InvitationId, Invitation>, a: AccountId, tenant: TenantId,
                                    hash: CodeHash, now: Time, expiresAt: Time)
    requires HashUnused(invitations, hash)
    ensures Fits(DueExpired(invitations, a, now), NewInvitation(a, tenant, hash, expiresAt)) <==>
            forall j :: j in invitations && invitations[j].account == a && invitations[j].state == Pending
                        ==> invitations[j].expiresAt < now
  {
    var after := DueExpired(invitations, a, now);
    forall j | j in invitations
      ensures after[j].state == Pending && after[j].account == a <==>
              invitations[j].state == Pending && invitations[j].account == a && invitations[j].expiresAt >= now
    {
    }
  }

  /** An invitation that reads as Expired still blocks its successor exactly at the
      instant of its expiry. */
  lemma ExpiredBlocksOnlyAtItsInstant(row: Invitation, a: AccountId, now: Time)
    requires row.account == a && row.state == Pending && ObservedState(row, now) == Expired
    ensures !Due(row, a, now) <==> now == row.expiresAt
  {
  }

  /** A live code of the account, or any row that keeps the same hash, stands in the way. */
  lemma FitsUnlessBlocked(invitations: map<InvitationId, Invitation>, a: AccountId, tenant: TenantId,
                          hash: CodeHash, now: Time, expiresAt: Time)
    ensures Fits(DueExpired(invitations, a, now), NewInvitation(a, tenant, hash, expiresAt)) <==>
            forall j :: j in invitations ==>
              var row := invitations[j];
              if row.account == a && row.state == Pending then row.expiresAt < now else row.hash != Some(hash)
  {
    var after := DueExpired(invitations, a, now);
    forall j | j in invitations
      ensures (after[j].hash != Some(hash) && (after[j].state == Pending ==> after[j].account != a)) <==>
              var row := invitations[j];
              if row.account == a && row.state == Pending then row.expiresAt < now else row.hash != Some(hash)
    {
    }
  }

  lemma DueExpiredRows(invitations: map<InvitationId, Invitation>, a: AccountId, now: Time)
    ensures DueExpired(invitations, a, now).Keys == invitations.Keys
    ensures forall j :: j in invitations ==>
              var row := invitations[j];
              DueExpired(invitations, a, now)[j] ==
              if row.account == a && row.state == Pending && row.expiresAt < now
              then row.(state := Expired, hash := None) else row
  {
  }

  ghost predicate InvitationsOk(accounts: map<AccountId, Account>, invitations: map<InvitationId, Invitation>) {
    && HashesUnique(invitations) && OnePending(invitations) && AccountsExist(accounts, invitations)
    && forall i :: i in invitations ==> InvitationOk(invitations[i])
  }

  lemma DueExpiredKeeps(accounts: map<AccountId, Account>, invitations: map<InvitationId, Invitation>,
                        a: AccountId, now: Time)
    requires InvitationsOk(accounts, invitations)
    ensures InvitationsOk(accounts, DueExpired(invitations, a, now))
  {
  }

  lemma InsertKeeps(accounts: map<AccountId, Account>, invitations: map<InvitationId, Invitation>,
                    i: InvitationId, row: Invitation)
    requires InvitationsOk(accounts, invitations) && i !in invitations && Fits(invitations, row)
    requires InvitationOk(row) && row.account in accounts && accounts[row.account].tenant == row.tenant
    ensures InvitationsOk(accounts, invitations[i := row])
  {
  }

  class InvitationStore {
    var accounts: map<AccountId, Account>
    var invitations: map<InvitationId, Invitation>

    ghost predicate Valid()
      reads this
    {
      InvitationsOk(accounts, invitations) && IdentitiesUnique(accounts)
    }

    constructor ()
      ensures Valid() && accounts == map[] && invitations == map[]
    {
      accounts, invitations := map[], map[];
    }

    method LinkIdentity(a: AccountId, identity: Identity) returns (r: Result<(), InvitationError>)
      modifies this`accounts
      ensures r.Ok? <==> a in old(accounts) && !IdentityTaken(old(accounts), a, identity)
      ensures r.Ok? ==> accounts == old(accounts)[a := old(accounts)[a].(identity := Some(identity))]
      ensures r.Err? ==> accounts == old(accounts)
      ensures a !in old(accounts) ==> r == Err(NotFound)
      ensures a in old(accounts) ==>
                (r == Err(Conflict) <==>
                   exists b :: b in old(accounts) && b != a && old(accounts)[b].tenant == old(accounts)[a].tenant
                               && old(accounts)[b].identity == Some(identity))
    {
      if a !in accounts {
        return Err(NotFound);
      }
      if IdentityTaken(accounts, a, identity) {
        return Err(Conflict);
      }
      accounts := accounts[a := accounts[a].(identity := Some(identity))];
      r := Ok(());
    }

    /** Guarded on the stored state. */
    method MarkAccepted(i: InvitationId, at: Time) returns (r: Result<(), InvitationError>)
      modifies this`invitations
      ensures r.Ok? <==> i in old(invitations) && old(invitations)[i].state == Pending
      ensures r.Ok? ==> invitations == old(invitations)[i := MarkedAccepted(old(invitations)[i], at)]
      ensures r.Ok? ==>
                invitations == old(invitations)[i := old(invitations)[i].(state := Accepted, acceptedAt := Some(at),
                                                                          hash := None)]
      ensures r.Err? ==> r.error == NotFound && invitations == old(invitations)
    {
      if i !in invitations || invitations[i].state != Pending {
        return Err(NotFound);
      }
      invitations := invitations[i := invitations[i].(state := Accepted, acceptedAt := Some(at), hash := None)];
      r := Ok(());
    }

    method MarkRevoked(i: InvitationId, at: Time) returns (r: Result<(), InvitationError>)
      modifies this`invitations
      ensures r.Ok? <==> i in old(invitations) && old(invitations)[i].state == Pending
      ensures r.Ok? ==> invitations == old(invitations)[i := MarkedRevoked(old(invitations)[i], at)]
      ensures r.Ok? ==>
                invitations == old(invitations)[i := old(invitations)[i].(state := Revoked, revokedAt := Some(at),
                                                                          hash := None)]
      ensures r.Err? ==> r.error == NotFound && invitations == old(invitations)
    {
      if i !in invitations || invitations[i].state != Pending {
        return Err(NotFound);
      }
      invitations := invitations[i := invitations[i].(state := Revoked, revokedAt := Some(at), hash := None)];
      r := Ok(());
    }

    method ExpirePendingIfDue(a: AccountId, now: Time)
      modifies this`invitations
      ensures invitations == DueExpired(old(invitations), a, now)
      ensures invitations.Keys == old(invitations).Keys
      ensures forall i :: i in invitations ==>
                var row := old(invitations)[i];
                invitations[i] == if row.account == a && row.state == Pending && row.expiresAt < now
                                  then row.(state := Expired, hash := None) else row
    {
      invitations := map i | i in invitations ::
                       if Due(invitations[i], a, now) then invitations[i].(state := Expired, hash := None)
                       else invitations[i];
    }

    method Insert(i: InvitationId, row: Invitation) returns (r: Result<(), InvitationError>)
      requires i !in invitations && row.state == Pending && row.hash.Some?
      modifies this`invitations
      ensures r.Ok? <==> Fits(old(invitations), row)
      ensures r.Ok? ==> invitations == old(invitations)[i := row]
      ensures r.Err? ==> r.error == Conflict && invitations == old(invitations)
    {
      if j :| j in invitations
              && (invitations[j].hash == row.hash
                  || (invitations[j].state == Pending && invitations[j].account == row.account)) {
        return Err(Conflict);
      }
      invitations := invitations[i := row];
      r := Ok(());
    }

    /** Redeems an invitation: the account is linked and the invitation spent
        together, or nothing changes. */
    method Accept(i: InvitationId, hash: CodeHash, identity: Identity, now: Time, commits: bool)
      returns (r: Result<(), InvitationError>)
      requires Valid()
      modifies this
      ensures Valid()
      ensures r.Ok? <==>
                && i in old(invitations) && old(invitations)[i].hash == Some(hash)
                && ObservedState(old(invitations)[i], now) == Pending
                && old(accounts)[old(invitations)[i].account].identity.None?
                && !IdentityTaken(old(accounts), old(invitations)[i].account, identity)
                && commits
      ensures r.Ok? ==>
                var a := old(invitations)[i].account;
                && accounts == old(accounts)[a := old(accounts)[a].(identity := Some(identity))]
                && invitations == old(invitations)[i := MarkedAccepted(old(invitations)[i], now)]
      ensures r.Err? ==> accounts == old(accounts) && invitations == old(invitations)
      ensures i !in old(invitations) || old(invitations)[i].hash != Some(hash) ==> r == Err(NotFound)
      // In the columns' own terms.
      ensures r.Ok? ==>
                && old(invitations)[i].state == Pending && now < old(invitations)[i].expiresAt
                && invitations == old(invitations)[i := old(invitations)[i].(state := Accepted,
                                                                             acceptedAt := Some(now), hash := None)]
      ensures i in old(invitations) && old(invitations)[i].hash == Some(hash) ==>
                var row := old(invitations)[i];
                (r == Err(Conflict) <==>
                   || row.state != Pending || now >= row.expiresAt
                   || old(accounts)[row.account].identity.Some?
                   || exists b :: b in old(accounts) && b != row.account
                                  && old(accounts)[b].tenant == old(accounts)[row.account].tenant
                                  && old(accounts)[b].identity == Some(identity))
    {
      // The hash is unique, so the row it finds is the named one or the lookup fails.
      if i !in invitations || invitations[i].hash != Some(hash) {
        return Err(NotFound);
      }
      var invitation := invitations[i];
      if ObservedState(invitation, now) != Pending {
        return Err(Conflict);
      }
      if accounts[invitation.account].identity.Some? {
        return Err(Conflict);
      }
      var accountsBefore, invitationsBefore := accounts, invitations;
      r := LinkIdentity(invitation.account, identity);
      if r.Err? {
        return;
      }
      var marked := MarkAccepted(i, now);
      if marked.Err? || !commits {
        accounts, invitations := accountsBefore, invitationsBefore;
        return Err(Internal);
      }
    }

    /** Invites an unlinked account. A row past its expiry makes way; one exactly at
        its expiry still blocks. */
    method Create(i: InvitationId, tenant: TenantId, a: AccountId, hash: CodeHash, now: Time, expiresIn: nat,
                  commits: bool)
      returns (r: Result<(), InvitationError>)
      requires Valid() && i !in invitations
      modifies this`invitations
      ensures Valid()
      ensures a !in accounts || accounts[a].tenant != tenant ==> r == Err(NotFound)
      ensures r.Ok? <==>
                && a in accounts && accounts[a].tenant == tenant && accounts[a].identity.None? && commits
                && Fits(DueExpired(old(invitations), a, now), NewInvitation(a, tenant, hash, now + expiresIn))
      ensures r.Ok? ==> invitations == DueExpired(old(invitations), a, now)[
                                         i := NewInvitation(a, tenant, hash, now + expiresIn)]
      ensures r.Err? ==> invitations == old(invitations)
      ensures a in accounts && accounts[a].tenant == tenant ==>
                (r == Err(Conflict) <==>
                   accounts[a].identity.Some?
                   || exists j :: j in old(invitations)
                                  && var row := old(invitations)[j];
                                     if row.account == a && row.state == Pending then row.expiresAt >= now
                                     else row.hash == Some(hash))
      ensures r.Ok? ==>
                && i in invitations
                && invitations[i] == Invitation(a, tenant, Pending, Some(hash), now + expiresIn, None, None)
                && invitations.Keys == old(invitations).Keys + {i}
                && forall j :: j in old(invitations) ==>
                     var row := old(invitations)[j];
                     invitations[j] == if row.account == a && row.state == Pending && row.expiresAt < now
                                       then row.(state := Expired, hash := None) else row
    {
      FitsUnlessBlocked(invitations, a, tenant, hash, now, now + expiresIn);
      DueExpiredRows(invitations, a, now);
      if a !in accounts || accounts[a].tenant != tenant {
        return Err(NotFound);
      }
      if accounts[a].identity.Some? {
        return Err(Conflict);
      }
      hide InvitationsOk, Fits, DueExpired;
      var before := invitations;
      DueExpiredKeeps(accounts, invitations, a, now);
      ExpirePendingIfDue(a, now);
      if Fits(invitations, NewInvitation(a, tenant, hash, now + expiresIn)) {
        InsertKeeps(accounts, invitations, i, NewInvitation(a, tenant, hash, now + expiresIn));
      }
      r := Insert(i, NewInvitation(a, tenant, hash, now + expiresIn));
      if r.Err? {
        invitations := before;
        return;
      }
      if !commits {
        invitations := before;
        return Err(Internal);
      }
    }

    method Revoke(tenant: TenantId, i: InvitationId, now: Time, commits: bool)
      returns (r: Result<(), InvitationError>)
      requires Valid()
      modifies this`invitations
      ensures Valid()
      ensures i !in old(invitations) || old(invitations)[i].tenant != tenant ==> r == Err(NotFound)
      ensures r.Ok? <==> i in old(invitations) && old(invitations)[i].tenant == tenant
                         && ObservedState(old(invitations)[i], now) == Pending && commits
      ensures r.Ok? ==> invitations == old(invitations)[i := MarkedRevoked(old(invitations)[i], now)]
      ensures r.Err? ==> invitations == old(invitations)
      ensures i in old(invitations) && old(invitations)[i].tenant == tenant ==>
                (r == Err(Conflict) <==>
                   old(invitations)[i].state != Pending || now >= old(invitations)[i].expiresAt)
      ensures r.Ok? ==>
                invitations == old(invitations)[i := old(invitations)[i].(state := Revoked, revokedAt := Some(now),
                                                                          hash := None)]
    {
      if i !in invitations || invitations[i].tenant != tenant {
        return Err(NotFound);
      }
      if ObservedState(invitations[i], now) != Pending {
        return Err(Conflict);
      }
      var before := invitations;
      r := MarkRevoked(i, now);
      if !commits {
        invitations := before;
        return Err(Internal);
      }
    }
  }
}
