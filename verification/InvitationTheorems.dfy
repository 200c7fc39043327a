/** What every interleaving of accepting, creating and revoking invitations
    guarantees. */
module InvitationTheorems {
  import opened Wrappers
  import opened Invitations
  import opened InvitationProtocol

  /** An account is linked exactly when one of its invitations was accepted, and
      never by two. */
  lemma LinkedByExactlyOneInvitation(states: seq<Sys>, steps: seq<Step>, n: nat, a: AccountId)
    requires Run(states, steps) && n <= |steps| && a in states[n].accounts
    ensures var s := states[n];
            && (s.accounts[a].identity.Some? <==>
                  exists i :: i in s.invitations && s.invitations[i].account == a
                              && s.invitations[i].state == Accepted)
            && forall i, j :: (i in s.invitations && j in s.invitations
                               && s.invitations[i].account == s.invitations[j].account == a
                               && s.invitations[i].state == s.invitations[j].state == Accepted) ==> i == j
  {
    InvHolds(states, steps, n);
    hide Stored, Locks, HeldPending, Accepts, Creates;
    assert HasAccepted(states[n], a) <==> states[n].accounts[a].identity.Some?;
  }

  /** The code hash is stored exactly while the row is stored pending, the stamps
      name the outcome, no account has two pending rows, no two rows share a hash,
      and an accepted row was accepted before its expiry. */
  lemma InvitationRows(states: seq<Sys>, steps: seq<Step>, n: nat, i: InvitationId)
    requires Run(states, steps) && n <= |steps| && i in states[n].invitations
    ensures var s := states[n];
            var row := s.invitations[i];
            && (row.hash.Some? <==> row.state == Pending)
            && (row.acceptedAt.Some? <==> row.state == Accepted)
            && (row.revokedAt.Some? <==> row.state == Revoked)
            && (row.state == Accepted ==> row.acceptedAt.value < row.expiresAt)
            && (forall j :: (j in s.invitations && j != i && s.invitations[j].account == row.account
                             && s.invitations[j].state == Pending) ==> row.state != Pending)
            && (forall j :: j in s.invitations && j != i && row.hash.Some? ==> s.invitations[j].hash != row.hash)
  {
    InvHolds(states, steps, n);
    hide LinkedByInvitation, Locks, HeldPending, Accepts, Creates;
  }

  /** No identity is linked to two accounts of one tenant. */
  lemma IdentitiesStayUnique(states: seq<Sys>, steps: seq<Step>, n: nat, a: AccountId, b: AccountId)
    requires Run(states, steps) && n <= |steps| && a in states[n].accounts && b in states[n].accounts && a != b
    requires states[n].accounts[a].tenant == states[n].accounts[b].tenant && states[n].accounts[a].identity.Some?
    ensures states[n].accounts[a].identity != states[n].accounts[b].identity
  {
    InvHolds(states, steps, n);
    hide LinkedByInvitation, Locks, HeldPending, Accepts, Creates;
  }

  lemma IdentityNext(s: Sys, step: Step, s': Sys, a: AccountId)
    requires Inv(s) && Next(s, step, s') && a in s.accounts
    ensures a in s'.accounts && s'.accounts[a].tenant == s.accounts[a].tenant
    ensures s.accounts[a].identity.Some? ==> s'.accounts[a] == s.accounts[a]
  {
    hide Stored, LinkedByInvitation, Locks, HeldPending, Accepts, Creates, Apply, Enabled;
    AccountsStay(s, step);
    AccountEffect(s, step, a);
    if step.CommitAccept? {
      CommitterUnlinked(s, step.tx);
    }
  }

  /** Although the linking UPDATE itself is unguarded, a committed identity never changes. */
  lemma {:induction false} IdentityNeverChanges(states: seq<Sys>, steps: seq<Step>, i: nat, j: nat, a: AccountId)
    requires Run(states, steps) && i <= j <= |steps| && a in states[i].accounts
    ensures a in states[j].accounts && states[j].accounts[a].tenant == states[i].accounts[a].tenant
    ensures states[i].accounts[a].identity.Some? ==> states[j].accounts[a].identity == states[i].accounts[a].identity
    decreases j
  {
    hide Inv, Next;
    if i < j {
      IdentityNeverChanges(states, steps, i, j - 1, a);
      InvHolds(states, steps, j - 1);
      assert Next(states[j - 1], steps[j - 1], states[j - 1 + 1]);
      IdentityNext(states[j - 1], steps[j - 1], states[j], a);
    }
  }

  lemma ForwardNext(s: Sys, step: Step, s': Sys, i: InvitationId)
    requires Inv(s) && Next(s, step, s') && i in s.invitations
    ensures i in s'.invitations && RowForward(s.invitations[i], s'.invitations[i])
  {
    hide Stored, LinkedByInvitation, Locks, HeldPending, Accepts, Creates, Apply, Enabled;
    RowsForward(s, step, i);
  }

  /** Accepted, Revoked and Expired are final. */
  lemma {:induction false} SpentInvitationsNeverChange(states: seq<Sys>, steps: seq<Step>, m: nat, n: nat,
                                                       i: InvitationId)
    requires Run(states, steps) && m <= n <= |steps| && i in states[m].invitations
    ensures i in states[n].invitations && RowForward(states[m].invitations[i], states[n].invitations[i])
    ensures var a, b := states[m].invitations[i], states[n].invitations[i];
            && a.account == b.account && a.tenant == b.tenant && a.expiresAt == b.expiresAt
            && (a.state != Pending ==> b == a)
    decreases n
  {
    hide Inv, Next;
    if m < n {
      SpentInvitationsNeverChange(states, steps, m, n - 1, i);
      InvHolds(states, steps, n - 1);
      assert Next(states[n - 1], steps[n - 1], states[n - 1 + 1]);
      ForwardNext(states[n - 1], steps[n - 1], states[n], i);
    }
  }

  /** An acceptance that linked its account after somebody else had committed a link
      is turned away by its guarded second UPDATE, whatever it read before. */
  lemma LateAcceptanceRollsBack(states: seq<Sys>, steps: seq<Step>, n: nat)
    requires Run(states, steps) && n < |steps| && steps[n].MarkAccepted?
    ensures steps[n].tx in states[n].txs && states[n].txs[steps[n].tx].Linked?
            && states[n].txs[steps[n].tx].account in states[n].accounts
    ensures states[n].accounts[states[n].txs[steps[n].tx].account].identity.Some? ==>
              states[n + 1] == states[n].(txs := states[n].txs - {steps[n].tx})
  {
    InvHolds(states, steps, n);
    assert Next(states[n], steps[n], states[n + 1]);
    MarkMeansAcceptOk(states[n], steps[n]);
    hide Inv, AccountFree, InvitationFree, IdentityFree, IdUnused, HashFree, PendingSlotFree, NothingDue;
  }

  lemma MarkMeansAcceptOk(s: Sys, step: Step)
    requires Inv(s) && Enabled(s, step) && step.MarkAccepted?
    ensures step.tx in s.txs && s.txs[step.tx].Linked? && AcceptOk(s, s.txs[step.tx])
  {
  }

  /** An invitation is resolved by its own code, and resolved or picked for revoking
      only while pending and before its expiry. */
  lemma InvitationsAreLiveWhenPresented(states: seq<Sys>, steps: seq<Step>, n: nat)
    requires Run(states, steps) && n < |steps|
    ensures match steps[n]
            case Resolve(_, i, hash, _, now) =>
              && i in states[n].invitations && states[n].invitations[i].hash == Some(hash)
              && states[n].invitations[i].state == Pending && now < states[n].invitations[i].expiresAt
            case ReadForRevoke(_, i, now) =>
              && i in states[n].invitations
              && states[n].invitations[i].state == Pending && now < states[n].invitations[i].expiresAt
            case BeginCreate(_, a, tenant, _) =>
              a in states[n].accounts && states[n].accounts[a].tenant == tenant && states[n].accounts[a].identity.None?
            case _ => true
  {
    assert Next(states[n], steps[n], states[n + 1]);
    hide Apply, AccountFree, InvitationFree, IdentityFree, IdUnused, HashFree, PendingSlotFree, NothingDue;
  }

  // ---- The instant of expiry ----

  lemma Extend(states: seq<Sys>, steps: seq<Step>, step: Step) returns (states': seq<Sys>, steps': seq<Step>)
    requires Run(states, steps) && Enabled(states[|steps|], step)
    ensures steps' == steps + [step] && states' == states + [Apply(states[|steps|], step)]
    ensures Run(states', steps')
  {
    hide Apply, Enabled;
    states', steps' := states + [Apply(states[|steps|], step)], steps + [step];
    forall k | 0 <= k < |steps'| ensures Next(states'[k], steps'[k], states'[k + 1]) {
      if k < |steps| {
        assert Next(states[k], steps[k], states[k + 1]);
      }
    }
  }

  /** One unlinked account and one invitation for it, expiring at 3600. */
  function OneInvitation(): Sys {
    Sys(OneAccount, map[0 := NewInvitation(0, 0, "hash", 3600)], map[])
  }

  const OneAccount := map[0 := Account(0, None)]

  lemma BeginInvite() returns (states: seq<Sys>, steps: seq<Step>)
    ensures Run(states, steps) && states[|steps|] == Sys(OneAccount, map[], map[0 := CreateChecked(0, 0, 0)])
  {
    states, steps := Extend([Empty], [], AddAccount(0, 0));
    assert states[|steps|] == Sys(OneAccount, map[], map[]);
    states, steps := Extend(states, steps, BeginCreate(0, 0, 0, 0));
  }

  lemma InsertInvite() returns (states: seq<Sys>, steps: seq<Step>)
    ensures Run(states, steps)
    ensures states[|steps|] == Sys(OneAccount, map[], map[0 := CreateInserted(0, 0, 0, None, 0, "hash", 3600)])
  {
    states, steps := BeginInvite();
    states, steps := Extend(states, steps, ClearDue(0, None));
    assert states[|steps|] == Sys(OneAccount, map[], map[0 := CreateCleared(0, 0, 0, None)]);
    states, steps := Extend(states, steps, InsertInvitation(0, 0, "hash", 3600));
  }

  lemma InviteOnce() returns (states: seq<Sys>, steps: seq<Step>)
    ensures Run(states, steps) && states[|steps|] == OneInvitation()
  {
    states, steps := InsertInvite();
    states, steps := Extend(states, steps, CommitCreate(0));
    assert states[|steps|].txs == map[];
  }

  /** A create at the very instant the first invitation expires: the row reads as
      Expired, the clearing UPDATE does not match it, and no insert can follow. */
  lemma ExpiredInvitationBlocksItsSuccessor() returns (states: seq<Sys>, steps: seq<Step>)
    ensures Run(states, steps)
    ensures var s := states[|steps|];
            && 0 in s.invitations && s.invitations[0].account == 0
            && ObservedState(s.invitations[0], 3600) == Expired
            && 1 in s.txs && s.txs[1] == CreateCleared(0, 0, 3600, None)
            && forall i, hash, expiresIn :: !Enabled(s, InsertInvitation(1, i, hash, expiresIn))
  {
    states, steps := InviteOnce();
    states, steps := Extend(states, steps, BeginCreate(1, 0, 0, 3600));
    states, steps := Extend(states, steps, ClearDue(1, None));
    var s := states[|steps|];
    assert s.invitations[0] == NewInvitation(0, 0, "hash", 3600);
    assert !NoOtherPending(s, 0, None);
  }
}
