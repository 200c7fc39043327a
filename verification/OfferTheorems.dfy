/** What every interleaving of token requests, credential requests, cancels and
    bulk cancels guarantees. */
module OfferTheorems {
  import opened Wrappers
  import opened Offers
  import opened OfferProtocol

  /** Issued offers and credentials correspond one to one, and every redemption
      happened before the offer's expiry. */
  lemma CredentialsAndIssuedOffersCorrespond(states: seq<Sys>, steps: seq<Step>, n: nat)
    requires Run(states, steps) && n <= |steps|
    ensures var s := states[n];
            && (forall c :: c in s.creds ==>
                         var o := s.creds[c].offer;
                         o in s.offers && s.offers[o].state == Issued
                         && s.offers[o].issuedAt == Some(s.creds[c].issuedAt)
                         && s.creds[c].issuedAt < s.offers[o].expiresAt)
            && (forall c, d :: c in s.creds && d in s.creds && s.creds[c].offer == s.creds[d].offer ==> c == d)
            && (forall o :: o in s.offers && s.offers[o].state == Issued ==>
                         exists c :: c in s.creds && s.creds[c].offer == o)
  {
    InvHolds(states, steps, n);
    hide LocksExclusive, LockedRows, CredentialIds, Nonces, Tokens, Sweeps;
    forall o | o in states[n].offers && states[n].offers[o].state == Issued ensures Backed(states[n], o) {
    }
  }

  /** The pre-authorised code is stored exactly while the offer is stored Pending,
      and the stamps name the one terminal state reached. */
  lemma CodeLivesWhilePending(states: seq<Sys>, steps: seq<Step>, n: nat, o: OfferId)
    requires Run(states, steps) && n <= |steps| && o in states[n].offers
    ensures var row := states[n].offers[o];
            && (row.code.Some? <==> row.state == Pending)
            && (row.issuedAt.Some? <==> row.state == Issued)
            && (row.cancelledAt.Some? <==> row.state == Cancelled)
            && row.state != Expired
  {
    InvHolds(states, steps, n);
  }

  lemma ForwardNext(s: Sys, step: Step, s': Sys, o: OfferId)
    requires Inv(s) && Next(s, step, s') && o in s.offers
    ensures o in s'.offers && RowForward(s.offers[o], s'.offers[o])
  {
    hide RowsOk, CredentialsMatchOffers, LocksExclusive, LockedRows, CredentialIds, Nonces, Tokens, Sweeps,
         Apply, Enabled;
    RowsForward(s, step, o);
  }

  /** Issued and Cancelled are final: whatever runs afterwards, the whole row stays,
      so no offer is ever both issued and cancelled. */
  lemma {:induction false} TerminalRowsNeverChange(states: seq<Sys>, steps: seq<Step>, i: nat, j: nat, o: OfferId)
    requires Run(states, steps) && i <= j <= |steps| && o in states[i].offers
    ensures o in states[j].offers && RowForward(states[i].offers[o], states[j].offers[o])
    ensures var a, b := states[i].offers[o], states[j].offers[o];
            a.issuer == b.issuer && a.expiresAt == b.expiresAt && (a.state != Pending ==> b == a)
    decreases j
  {
    hide Inv, Next;
    if i < j {
      TerminalRowsNeverChange(states, steps, i, j - 1, o);
      InvHolds(states, steps, j - 1);
      assert Next(states[j - 1], steps[j - 1], states[j - 1 + 1]);
      ForwardNext(states[j - 1], steps[j - 1], states[j], o);
    }
  }

  /** Behind every credential stand a nonce and a token minted for its own offer;
      the nonce is consumed and backs no other credential or request. */
  lemma SecretsBelongToTheOffer(states: seq<Sys>, steps: seq<Step>, n: nat, c: CredentialNo)
    requires Run(states, steps) && n <= |steps| && c in states[n].creds
    ensures var s := states[n];
            var row := s.creds[c];
            && row.nonce in s.nonceFor && s.nonceFor[row.nonce] == row.offer && row.nonce !in s.nonces
            && row.token in s.tokenFor && s.tokenFor[row.token] == row.offer
            && (forall d :: d in s.creds && d != c ==> s.creds[d].nonce != row.nonce)
            && (forall q :: q in s.reqs && HasNonce(s.reqs[q]) ==> s.reqs[q].nonce != row.nonce)
  {
    InvHolds(states, steps, n);
    hide RowsOk, LocksExclusive, LockedRows, CredentialIds, Sweeps;
    var s := states[n];
    forall d | d in s.creds && d != c ensures s.creds[d].nonce != s.creds[c].nonce {
      assert NonceBound(s, s.creds[d].nonce, s.creds[d].offer);
      assert NonceBound(s, s.creds[c].nonce, s.creds[c].offer);
    }
  }

  /** A request that holds the offer lock never meets the unique constraint on the
      credential's offer: every other credential or insert is of another offer. */
  lemma InsertNeverCollides(states: seq<Sys>, steps: seq<Step>, n: nat, r: ReqId)
    requires Run(states, steps) && n <= |steps| && r in states[n].reqs && states[n].reqs[r].OfferLocked?
    ensures OfferUnbacked(states[n], r, states[n].reqs[r].offer)
    ensures forall c :: c in states[n].creds ==> states[n].creds[c].offer != states[n].reqs[r].offer
  {
    InvHolds(states, steps, n);
    hide RowsOk, CredentialIds, Sweeps, Nonces, Tokens;
    var s := states[n];
    assert HoldsOffer(s.reqs[r], s.reqs[r].offer);
    forall q | q in s.reqs && q != r && s.reqs[q].CredentialPut? ensures s.reqs[q].offer != s.reqs[r].offer {
      assert HoldsOffer(s.reqs[q], s.reqs[q].offer);
    }
  }

  // ---- Bulk cancel ----

  ghost predicate SweepsOf(s: Sys, r: ReqId, issuer: OfferIssuer, snapshot: set<OfferId>) {
    r in s.reqs && s.reqs[r].Sweeping? && s.reqs[r].issuer == issuer && s.reqs[r].snapshot == snapshot
  }

  lemma SweepStays(s: Sys, step: Step, s': Sys, r: ReqId, issuer: OfferIssuer, snapshot: set<OfferId>)
    requires Next(s, step, s') && SweepsOf(s, r, issuer, snapshot)
    requires step != Drop(r) && step != CommitSweep(r)
    ensures SweepsOf(s', r, issuer, snapshot)
  {
  }

  lemma {:induction false} SweepRemembers(states: seq<Sys>, steps: seq<Step>, i: nat, j: nat, r: ReqId,
                                          issuer: OfferIssuer, snapshot: set<OfferId>)
    requires Run(states, steps) && i <= j <= |steps| && SweepsOf(states[i], r, issuer, snapshot)
    requires forall k :: i <= k < j ==> steps[k] != Drop(r) && steps[k] != CommitSweep(r)
    ensures SweepsOf(states[j], r, issuer, snapshot)
    decreases j
  {
    hide Next, SweepsOf;
    if i < j {
      SweepRemembers(states, steps, i, j - 1, r, issuer, snapshot);
      assert Next(states[j - 1], steps[j - 1], states[j - 1 + 1]);
      SweepStays(states[j - 1], steps[j - 1], states[j], r, issuer, snapshot);
    }
  }

  lemma SweepStarts(s: Sys, step: Step, s': Sys)
    requires Next(s, step, s') && step.StartSweep?
    ensures SweepsOf(s', step.req, step.issuer, set o | o in s.offers && SweptBy(s.offers[o], step.issuer))
  {
  }

  lemma SweepEnds(s: Sys, step: Step, s': Sys, issuer: OfferIssuer, snapshot: set<OfferId>, o: OfferId)
    requires Inv(s) && Next(s, step, s') && step.CommitSweep? && SweepsOf(s, step.req, issuer, snapshot)
    requires o in snapshot
    ensures o in s'.offers && s'.offers[o].state != Pending
    ensures o in s.reqs[step.req].done <==> o in s.offers && s'.offers[o] != s.offers[o]
  {
  }

  /** Once a bulk cancel commits, no offer that was pending for the issuer when it
      began is pending any more, however redemptions and cancels raced with it; its
      count is the number of rows this commit itself changed. */
  lemma BulkCancelLeavesNonePending(states: seq<Sys>, steps: seq<Step>, i: nat, j: nat, o: OfferId)
    requires Run(states, steps) && i < j < |steps|
    requires steps[i].StartSweep? && steps[j] == CommitSweep(steps[i].req)
    requires forall k :: i < k < j ==> steps[k] != Drop(steps[i].req) && steps[k] != CommitSweep(steps[i].req)
    requires o in states[i].offers && SweptBy(states[i].offers[o], steps[i].issuer)
    ensures o in states[j + 1].offers && states[j + 1].offers[o].state != Pending
    ensures steps[i].req in states[j].reqs && states[j].reqs[steps[i].req].Sweeping?
    ensures o in states[j].reqs[steps[i].req].done <==>
              o in states[j].offers && states[j + 1].offers[o] != states[j].offers[o]
  {
    hide Inv, Next;
    var issuer := steps[i].issuer;
    var snapshot := set x | x in states[i].offers && SweptBy(states[i].offers[x], issuer);
    assert Next(states[i], steps[i], states[i + 1]);
    SweepStarts(states[i], steps[i], states[i + 1]);
    SweepRemembers(states, steps, i + 1, j, steps[i].req, issuer, snapshot);
    InvHolds(states, steps, j);
    assert Next(states[j], steps[j], states[j + 1]);
    SweepEnds(states[j], steps[j], states[j + 1], issuer, snapshot, o);
  }

  // ---- What each statement of a redemption insists on ----

  /** A code is exchanged for a pending unexpired offer of the issuer that has no token; a
      token is accepted unexpired and from its issuer; a nonce is consumed unexpired. */
  lemma SecretsAreLiveWhenPresented(states: seq<Sys>, steps: seq<Step>, n: nat)
    requires Run(states, steps) && n < |steps|
    ensures match steps[n]
            case ReadForToken(_, o, issuer, code, now) =>
              && o in states[n].offers && states[n].offers[o].issuer == issuer && states[n].offers[o].code == Some(code)
              && states[n].offers[o].state == Pending && now < states[n].offers[o].expiresAt
            case MintToken(r, _, _) =>
              r in states[n].reqs && states[n].reqs[r].TokenRead?
              && forall t :: t in states[n].tokens ==> states[n].tokens[t].offer != states[n].reqs[r].offer
            case FindToken(_, t, issuer, at) =>
              t in states[n].tokens && at < states[n].tokens[t].expiresAt && states[n].tokens[t].issuer == issuer
            case ConsumeNonce(r, nonce) =>
              r in states[n].reqs && states[n].reqs[r].OfferSeen?
              && nonce in states[n].nonces && states[n].reqs[r].now < states[n].nonces[nonce].expiresAt
            case _ => true
  {
    assert Next(states[n], steps[n], states[n + 1]);
    hide Apply, OfferFree, OfferUnbacked, IdUnused;
  }
}
