/** Offer redemption as a state machine over its statements: token requests,
    credential requests, cancels and bulk cancels interleave. Statements outside a
    transaction commit at once; inside one, row locks are held and writes become
    visible at the commit. */
module OfferProtocol {
  import opened Wrappers
  import opened Offers

  type ReqId = nat

  datatype Req =
    // Token request: offer read; token row inserted.
    | TokenRead(offer: OfferId, now: Time)
    | TokenMinted(offer: OfferId, now: Time)
    // Credential request: token row read; offer read; nonce consumed; then, in one
    // transaction, offer row locked; credential inserted.
    | TokenFound(token: TokenHash, offer: OfferId)
    | OfferSeen(token: TokenHash, offer: OfferId, now: Time)
    | NonceTaken(token: TokenHash, offer: OfferId, now: Time, nonce: NonceHash)
    | OfferLocked(token: TokenHash, offer: OfferId, now: Time, nonce: NonceHash)
    | CredentialPut(token: TokenHash, offer: OfferId, now: Time, nonce: NonceHash, id: CredentialNo)
    // Cancel: offer read. Bulk cancel: rows of its snapshot not yet reached, rows updated.
    | CancelRead(offer: OfferId, now: Time)
    | Sweeping(issuer: OfferIssuer, now: Time, snapshot: set<OfferId>, todo: set<OfferId>, done: set<OfferId>)

  datatype Sys = Sys(
    offers: map<OfferId, OfferRow>,
    tokens: map<TokenHash, TokenRow>,
    nonces: map<NonceHash, NonceRow>,
    creds: map<CredentialNo, OfferCredential>,
    reqs: map<ReqId, Req>,
    // Auxiliary: the offer every secret ever minted was minted for.
    tokenFor: map<TokenHash, OfferId>,
    nonceFor: map<NonceHash, OfferId>)

  datatype Step =
    | CreateOffer(offer: OfferId, issuer: OfferIssuer, code: Code, expiresAt: Time)
    | ReadForToken(req: ReqId, offer: OfferId, issuer: OfferIssuer, code: Code, now: Time)
    | MintToken(req: ReqId, token: TokenHash, ttl: nat)
    | MintNonce(req: ReqId, nonce: NonceHash, ttl: nat)
    | FindToken(req: ReqId, token: TokenHash, issuer: OfferIssuer, at: Time)
    | SeeOffer(req: ReqId, now: Time)
    | ConsumeNonce(req: ReqId, nonce: NonceHash)
    | LockOffer(req: ReqId)
    | PutCredential(req: ReqId, id: CredentialNo)
    | CommitIssue(req: ReqId)
    | ReadForCancel(req: ReqId, offer: OfferId, now: Time)
    | CancelRow(req: ReqId)
    | StartSweep(req: ReqId, issuer: OfferIssuer, now: Time)
    | SweepRow(req: ReqId, offer: OfferId)
    | CommitSweep(req: ReqId)
    // An error answer, a lost connection or a crash: an open transaction rolls back.
    | Drop(req: ReqId)

  const Empty := Sys(map[], map[], map[], map[], map[], map[], map[])

  predicate Redeeming(r: Req) {
    r.OfferLocked? || r.CredentialPut?
  }

  predicate HoldsOffer(r: Req, o: OfferId) {
    (Redeeming(r) && r.offer == o) || (r.Sweeping? && o in r.done)
  }

  predicate OfferFree(s: Sys, req: ReqId, o: OfferId) {
    forall q :: q in s.reqs && q != req ==> !HoldsOffer(s.reqs[q], o)
  }

  /** Neither a row nor an open transaction has the offer in `credential_offer_id`. */
  predicate OfferUnbacked(s: Sys, req: ReqId, o: OfferId) {
    && (forall c :: c in s.creds ==> s.creds[c].offer != o)
    && (forall q :: q in s.reqs && q != req && s.reqs[q].CredentialPut? ==> s.reqs[q].offer != o)
  }

  predicate IdUnused(s: Sys, c: CredentialNo) {
    c !in s.creds && forall q :: q in s.reqs && s.reqs[q].CredentialPut? ==> s.reqs[q].id != c
  }

  predicate Enabled(s: Sys, step: Step) {
    match step
    case CreateOffer(o, _, _, _) => o !in s.offers
    case ReadForToken(r, o, issuer, code, now) =>
      r !in s.reqs && o in s.offers && s.offers[o].issuer == issuer && s.offers[o].code == Some(code)
      && ObservedState(s.offers[o], now) == Pending
    // The insert waits for, and then fails on, a row of the same offer; the secret is new.
    case MintToken(r, t, _) =>
      r in s.reqs && s.reqs[r].TokenRead? && s.reqs[r].offer in s.offers && t !in s.tokenFor
      && forall u :: u in s.tokens ==> s.tokens[u].offer != s.reqs[r].offer
    case MintNonce(r, n, _) => r in s.reqs && s.reqs[r].TokenMinted? && n !in s.nonceFor
    case FindToken(r, t, issuer, at) =>
      r !in s.reqs && t in s.tokens && s.tokens[t].expiresAt > at && s.tokens[t].issuer == issuer
    case SeeOffer(r, now) => r in s.reqs && s.reqs[r].TokenFound? && s.reqs[r].offer in s.offers
                             && ObservedState(s.offers[s.reqs[r].offer], now) == Pending
    case ConsumeNonce(r, n) => r in s.reqs && s.reqs[r].OfferSeen? && n in s.nonces
                               && s.nonces[n].expiresAt > s.reqs[r].now
    case LockOffer(r) => r in s.reqs && s.reqs[r].NonceTaken? && s.reqs[r].offer in s.offers
                         && OfferFree(s, r, s.reqs[r].offer)
    case PutCredential(r, c) => r in s.reqs && s.reqs[r].OfferLocked? && IdUnused(s, c)
                                && OfferUnbacked(s, r, s.reqs[r].offer)
    case CommitIssue(r) => r in s.reqs && s.reqs[r].CredentialPut? && s.reqs[r].offer in s.offers
    case ReadForCancel(r, o, _) => r !in s.reqs && o in s.offers && s.offers[o].state == Pending
    case CancelRow(r) => r in s.reqs && s.reqs[r].CancelRead? && s.reqs[r].offer in s.offers
                         && OfferFree(s, r, s.reqs[r].offer)
    case StartSweep(r, _, _) => r !in s.reqs
    case SweepRow(r, o) => r in s.reqs && s.reqs[r].Sweeping? && o in s.reqs[r].todo && o in s.offers
                           && OfferFree(s, r, o)
    case CommitSweep(r) => r in s.reqs && s.reqs[r].Sweeping? && s.reqs[r].todo == {}
    case Drop(r) => r in s.reqs
  }

  function CommitIssueEffect(s: Sys, r: ReqId): Sys
    requires r in s.reqs && s.reqs[r].CredentialPut? && s.reqs[r].offer in s.offers
  {
    var q := s.reqs[r];
    s.(offers := s.offers[q.offer := Issue(s.offers[q.offer], q.now)],
       creds := s.creds[q.id := OfferCredential(q.offer, q.now, q.nonce, q.token)],
       tokens := s.tokens - {q.token},
       reqs := s.reqs - {r})
  }

  function Apply(s: Sys, step: Step): Sys
    requires Enabled(s, step)
  {
    match step
    case CreateOffer(o, issuer, code, expiresAt) => s.(offers := s.offers[o := NewOffer(issuer, code, expiresAt)])
    case ReadForToken(r, o, _, _, now) => s.(reqs := s.reqs[r := TokenRead(o, now)])
    case MintToken(r, t, ttl) =>
      var q := s.reqs[r];
      s.(tokens := s.tokens[t := TokenRow(s.offers[q.offer].issuer, q.offer, q.now + ttl)],
         tokenFor := s.tokenFor[t := q.offer],
         reqs := s.reqs[r := TokenMinted(q.offer, q.now)])
    case MintNonce(r, n, ttl) =>
      var q := s.reqs[r];
      s.(nonces := s.nonces[n := NonceRow(q.offer, q.now + ttl)],
         nonceFor := s.nonceFor[n := q.offer],
         reqs := s.reqs - {r})
    case FindToken(r, t, _, _) => s.(reqs := s.reqs[r := TokenFound(t, s.tokens[t].offer)])
    case SeeOffer(r, now) => s.(reqs := s.reqs[r := OfferSeen(s.reqs[r].token, s.reqs[r].offer, now)])
    // The row is deleted whichever offer it was bound to.
    case ConsumeNonce(r, n) =>
      var q := s.reqs[r];
      s.(nonces := s.nonces - {n},
         reqs := if s.nonces[n].offer == q.offer then s.reqs[r := NonceTaken(q.token, q.offer, q.now, n)]
                 else s.reqs - {r})
    // try_issue runs on the locked row with the time of the earlier read.
    case LockOffer(r) =>
      var q := s.reqs[r];
      s.(reqs := if ObservedState(s.offers[q.offer], q.now) == Pending
                 then s.reqs[r := OfferLocked(q.token, q.offer, q.now, q.nonce)]
                 else s.reqs - {r})
    case PutCredential(r, c) =>
      var q := s.reqs[r];
      s.(reqs := s.reqs[r := CredentialPut(q.token, q.offer, q.now, q.nonce, c)])
    case CommitIssue(r) => CommitIssueEffect(s, r)
    case ReadForCancel(r, o, now) => s.(reqs := s.reqs[r := CancelRead(o, now)])
    // UPDATE ... WHERE state = 'pending': no row, no change.
    case CancelRow(r) =>
      var q := s.reqs[r];
      s.(offers := if s.offers[q.offer].state == Pending
                   then s.offers[q.offer := Cancel(s.offers[q.offer], q.now)] else s.offers,
         reqs := s.reqs - {r})
    case StartSweep(r, issuer, now) =>
      var rows := set o | o in s.offers && SweptBy(s.offers[o], issuer);
      s.(reqs := s.reqs[r := Sweeping(issuer, now, rows, rows, {})])
    case SweepRow(r, o) =>
      var q := s.reqs[r];
      s.(reqs := s.reqs[r := Sweeping(q.issuer, q.now, q.snapshot, q.todo - {o},
                                      if s.offers[o].state == Pending then q.done + {o} else q.done)])
    case CommitSweep(r) =>
      var q := s.reqs[r];
      s.(offers := map o | o in s.offers :: if o in q.done then Cancel(s.offers[o], q.now) else s.offers[o],
         reqs := s.reqs - {r})
    case Drop(r) => s.(reqs := s.reqs - {r})
  }

  ghost predicate Next(s: Sys, step: Step, s': Sys) {
    Enabled(s, step) && s' == Apply(s, step)
  }

  ghost predicate Run(states: seq<Sys>, steps: seq<Step>) {
    && |states| == |steps| + 1
    && states[0] == Empty
    && forall k :: 0 <= k < |steps| ==> Next(states[k], steps[k], states[k + 1])
  }

  // ---- What every interleaving keeps ----

  ghost predicate RowsOk(s: Sys) {
    forall o :: o in s.offers ==> RowOk(s.offers[o])
  }

  ghost predicate Backed(s: Sys, o: OfferId) {
    exists c :: c in s.creds && s.creds[c].offer == o
  }

  ghost predicate CredentialsMatchOffers(s: Sys) {
    && (forall c :: c in s.creds ==>
                 var o := s.creds[c].offer;
                 o in s.offers && s.offers[o].state == Issued && s.offers[o].issuedAt == Some(s.creds[c].issuedAt))
    && (forall c, d :: c in s.creds && d in s.creds && c != d ==> s.creds[c].offer != s.creds[d].offer)
    && (forall o :: o in s.offers && s.offers[o].state == Issued ==> Backed(s, o))
  }

  ghost predicate LocksExclusive(s: Sys) {
    forall p, q, o :: p in s.reqs && q in s.reqs && p != q && HoldsOffer(s.reqs[p], o)
                      ==> !HoldsOffer(s.reqs[q], o)
  }

  /** A locked row is still what its holder saw. */
  ghost predicate LockedRows(s: Sys) {
    && (forall q, o :: q in s.reqs && HoldsOffer(s.reqs[q], o) ==> o in s.offers && s.offers[o].state == Pending)
    && (forall q :: q in s.reqs && Redeeming(s.reqs[q]) ==>
                 s.reqs[q].offer in s.offers && s.reqs[q].now < s.offers[s.reqs[q].offer].expiresAt)
  }

  ghost predicate CredentialIds(s: Sys) {
    && (forall q :: q in s.reqs && s.reqs[q].CredentialPut? ==> s.reqs[q].id !in s.creds)
    && (forall p, q :: p in s.reqs && q in s.reqs && p != q && s.reqs[p].CredentialPut? && s.reqs[q].CredentialPut?
                 ==> s.reqs[p].id != s.reqs[q].id)
  }

  predicate HasNonce(r: Req) {
    r.NonceTaken? || Redeeming(r)
  }

  /** A consumed nonce is gone from the table and sits in at most one request or credential. */
  ghost predicate Nonces(s: Sys) {
    && (forall n :: n in s.nonces ==> n in s.nonceFor && s.nonceFor[n] == s.nonces[n].offer)
    && (forall q :: q in s.reqs && HasNonce(s.reqs[q]) ==> NonceBound(s, s.reqs[q].nonce, s.reqs[q].offer))
    && (forall c :: c in s.creds ==> NonceBound(s, s.creds[c].nonce, s.creds[c].offer))
    && (forall p, q :: p in s.reqs && q in s.reqs && p != q && HasNonce(s.reqs[p]) && HasNonce(s.reqs[q])
                 ==> s.reqs[p].nonce != s.reqs[q].nonce)
    && (forall q, c :: q in s.reqs && HasNonce(s.reqs[q]) && c in s.creds ==> s.reqs[q].nonce != s.creds[c].nonce)
  }

  predicate HasToken(r: Req) {
    r.TokenFound? || r.OfferSeen? || r.NonceTaken? || Redeeming(r)
  }

  ghost predicate Tokens(s: Sys) {
    && (forall t :: t in s.tokens ==> t in s.tokenFor && s.tokenFor[t] == s.tokens[t].offer)
    && (forall t, u :: t in s.tokens && u in s.tokens && t != u ==> s.tokens[t].offer != s.tokens[u].offer)
    && (forall q :: q in s.reqs && HasToken(s.reqs[q]) ==>
                 s.reqs[q].token in s.tokenFor && s.tokenFor[s.reqs[q].token] == s.reqs[q].offer)
    && (forall c :: c in s.creds ==>
                 s.creds[c].token in s.tokenFor && s.tokenFor[s.creds[c].token] == s.creds[c].offer)
  }

  /** Rows a sweep has passed by are either its own or no longer pending. */
  ghost predicate Sweeps(s: Sys) {
    forall q :: q in s.reqs && s.reqs[q].Sweeping? ==> SweepOk(s, s.reqs[q])
  }

  ghost predicate Inv(s: Sys) {
    && RowsOk(s) && CredentialsMatchOffers(s) && LocksExclusive(s) && LockedRows(s)
    && CredentialIds(s) && Nonces(s) && Tokens(s) && Sweeps(s)
  }

  // ---- What a step does, one row or request at a time ----

  /** The only three ways a stored row changes: its holder commits an issuance or a
      sweep, or a cancel meets it free and pending. */
  ghost predicate RowMoved(s: Sys, step: Step, o: OfferId, before: OfferRow, after: OfferRow) {
    || (step.CommitIssue? && step.req in s.reqs && s.reqs[step.req].CredentialPut? && s.reqs[step.req].offer == o
        && after == Issue(before, s.reqs[step.req].now))
    || (step.CommitSweep? && step.req in s.reqs && s.reqs[step.req].Sweeping? && o in s.reqs[step.req].done
        && after == Cancel(before, s.reqs[step.req].now))
    || (step.CancelRow? && step.req in s.reqs && s.reqs[step.req].CancelRead? && OfferFree(s, step.req, o) && before.state == Pending
        && after == Cancel(before, s.reqs[step.req].now))
  }

  predicate Commits(step: Step) {
    step.CommitIssue? || step.CommitSweep? || step.CancelRow?
  }

  lemma RowEffect(s: Sys, step: Step, o: OfferId)
    requires Enabled(s, step) && o in s.offers
    ensures var s' := Apply(s, step);
            o in s'.offers
            && (s'.offers[o] == s.offers[o] || RowMoved(s, step, o, s.offers[o], s'.offers[o]))
  {
  }

  lemma NewRowEffect(s: Sys, step: Step, o: OfferId)
    requires Enabled(s, step) && o !in s.offers && o in Apply(s, step).offers
    ensures Apply(s, step).offers[o].state == Pending && RowOk(Apply(s, step).offers[o])
  {
  }

  lemma CredentialEffect(s: Sys, step: Step)
    requires Enabled(s, step)
    ensures if step.CommitIssue? then
              step.req in s.reqs && s.reqs[step.req].CredentialPut? && s.reqs[step.req].offer in s.offers
              && Apply(s, step) == CommitIssueEffect(s, step.req)
            else Apply(s, step).creds == s.creds
  {
  }

  /** A request other than the step's own stays as it is; a finished one is gone. */
  lemma RequestEffect(s: Sys, step: Step, q: ReqId)
    requires Enabled(s, step) && q in Apply(s, step).reqs
    ensures (q in s.reqs && Apply(s, step).reqs[q] == s.reqs[q])
            || (!step.CreateOffer? && step.req == q && RequestMoved(s, step, Apply(s, step).reqs[q]))
    ensures Commits(step) ==> q != step.req
  {
  }

  /** The next stage of the step's own request. */
  ghost predicate RequestMoved(s: Sys, step: Step, after: Req) {
    match step
    case ReadForToken(_, o, _, _, now) => after == TokenRead(o, now)
    case MintToken(r, _, _) => r in s.reqs && s.reqs[r].TokenRead? && after == TokenMinted(s.reqs[r].offer, s.reqs[r].now)
    case FindToken(_, t, _, _) => t in s.tokens && after == TokenFound(t, s.tokens[t].offer)
    case SeeOffer(r, now) => r in s.reqs && s.reqs[r].TokenFound?
                             && after == OfferSeen(s.reqs[r].token, s.reqs[r].offer, now)
    case ConsumeNonce(r, n) => r in s.reqs && s.reqs[r].OfferSeen? && n in s.nonces
                               && s.nonces[n].offer == s.reqs[r].offer
                               && after == NonceTaken(s.reqs[r].token, s.reqs[r].offer, s.reqs[r].now, n)
    case LockOffer(r) => r in s.reqs && s.reqs[r].NonceTaken? && s.reqs[r].offer in s.offers
                         && OfferFree(s, r, s.reqs[r].offer)
                         && ObservedState(s.offers[s.reqs[r].offer], s.reqs[r].now) == Pending
                         && after == OfferLocked(s.reqs[r].token, s.reqs[r].offer, s.reqs[r].now, s.reqs[r].nonce)
    case PutCredential(r, c) => r in s.reqs && s.reqs[r].OfferLocked? && IdUnused(s, c)
                                && after == CredentialPut(s.reqs[r].token, s.reqs[r].offer, s.reqs[r].now,
                                                          s.reqs[r].nonce, c)
    case ReadForCancel(_, o, now) => after == CancelRead(o, now)
    case StartSweep(_, issuer, now) =>
      after.Sweeping? && after.done == {} && after.todo == after.snapshot && after.issuer == issuer
      && (forall o :: o in s.offers && SweptBy(s.offers[o], issuer) ==> o in after.snapshot)
      && (forall o :: o in after.snapshot ==> o in s.offers && SweptBy(s.offers[o], issuer))
    case SweepRow(r, o) =>
      r in s.reqs && s.reqs[r].Sweeping? && o in s.reqs[r].todo && o in s.offers && OfferFree(s, r, o)
      && after == Sweeping(s.reqs[r].issuer, s.reqs[r].now, s.reqs[r].snapshot, s.reqs[r].todo - {o},
                           if s.offers[o].state == Pending then s.reqs[r].done + {o} else s.reqs[r].done)
    case _ => false
  }

  // ---- Stored rows only move from Pending to a terminal state ----

  ghost predicate RowForward(a: OfferRow, b: OfferRow) {
    && a.issuer == b.issuer && a.expiresAt == b.expiresAt
    && (a.state != Pending ==> b == a)
  }

  lemma RowsForward(s: Sys, step: Step, o: OfferId)
    requires LockedRows(s) && Enabled(s, step) && o in s.offers
    ensures o in Apply(s, step).offers && RowForward(s.offers[o], Apply(s, step).offers[o])
  {
    hide Enabled, Apply;
    RowEffect(s, step, o);
    if Commits(step) && step.req in s.reqs {
      assert HoldsOffer(s.reqs[step.req], o) ==> s.offers[o].state == Pending;
    }
  }

  /** A locked row changes only when its holder commits. */
  lemma HeldRowsStay(s: Sys, step: Step, q: ReqId, o: OfferId)
    requires LocksExclusive(s) && Enabled(s, step) && o in s.offers
    requires q in s.reqs && q in Apply(s, step).reqs && HoldsOffer(s.reqs[q], o)
    ensures o in Apply(s, step).offers && Apply(s, step).offers[o] == s.offers[o]
  {
    hide Enabled, Apply;
    RowEffect(s, step, o);
    RequestEffect(s, step, q);
    if Commits(step) && step.req in s.reqs {
      assert !HoldsOffer(s.reqs[step.req], o);
    }
  }

  lemma RowsOkKept(s: Sys, step: Step)
    requires RowsOk(s) && LockedRows(s) && Enabled(s, step)
    ensures RowsOk(Apply(s, step))
  {
    hide Enabled, Apply;
    var s' := Apply(s, step);
    forall o | o in s'.offers ensures RowOk(s'.offers[o]) {
      if o in s.offers {
        RowEffect(s, step, o);
        if Commits(step) && step.req in s.reqs {
          assert HoldsOffer(s.reqs[step.req], o) ==> s.offers[o].state == Pending;
        }
      } else {
        NewRowEffect(s, step, o);
      }
    }
  }

  lemma CredentialsKept(s: Sys, step: Step)
    requires CredentialsMatchOffers(s) && LockedRows(s) && CredentialIds(s) && Enabled(s, step)
    ensures CredentialsMatchOffers(Apply(s, step))
  {
    hide Enabled, Apply;
    CredentialEffect(s, step);
    if step.CommitIssue? {
      CommitKeepsMatch(s, step.req);
    } else {
      MatchKept(s, step);
    }
  }

  lemma MatchKept(s: Sys, step: Step)
    requires CredentialsMatchOffers(s) && LockedRows(s) && Enabled(s, step) && !step.CommitIssue?
    ensures CredentialsMatchOffers(Apply(s, step))
  {
    hide Enabled, Apply;
    var s' := Apply(s, step);
    CredentialEffect(s, step);
    forall c | c in s'.creds
      ensures var o := s'.creds[c].offer;
              o in s'.offers && s'.offers[o].state == Issued && s'.offers[o].issuedAt == Some(s'.creds[c].issuedAt)
    {
      RowsForward(s, step, s.creds[c].offer);
    }
    forall o | o in s'.offers && s'.offers[o].state == Issued ensures Backed(s', o) {
      if o in s.offers {
        RowEffect(s, step, o);
      } else {
        NewRowEffect(s, step, o);
      }
      assert Backed(s, o);
    }
  }

  lemma CommitKeepsMatch(s: Sys, r: ReqId)
    requires CredentialsMatchOffers(s) && LockedRows(s) && CredentialIds(s)
    requires r in s.reqs && s.reqs[r].CredentialPut? && s.reqs[r].offer in s.offers
    ensures CredentialsMatchOffers(CommitIssueEffect(s, r))
  {
    var s' := CommitIssueEffect(s, r);
    var q := s.reqs[r];
    assert HoldsOffer(q, q.offer);
    forall o | o in s'.offers && s'.offers[o].state == Issued ensures Backed(s', o) {
      if o == q.offer {
        assert s'.creds[q.id].offer == o;
      } else {
        assert Backed(s, o);
        var c :| c in s.creds && s.creds[c].offer == o;
        assert s'.creds[c].offer == o;
      }
    }
  }

  // ---- Locks ----

  /** Only taking a lock adds one, on a free pending row. */
  lemma LocksGained(s: Sys, step: Step, q: ReqId, o: OfferId)
    requires Enabled(s, step) && q in Apply(s, step).reqs && HoldsOffer(Apply(s, step).reqs[q], o)
    ensures (q in s.reqs && HoldsOffer(s.reqs[q], o))
            || (!step.CreateOffer? && step.req == q && !Commits(step)
                && OfferFree(s, q, o) && o in s.offers && s.offers[o].state == Pending)
  {
    hide Enabled, Apply;
    RequestEffect(s, step, q);
  }

  lemma LocksExclusiveKept(s: Sys, step: Step)
    requires LocksExclusive(s) && Enabled(s, step)
    ensures LocksExclusive(Apply(s, step))
  {
    hide Enabled, Apply;
    var s' := Apply(s, step);
    forall p, q, o | p in s'.reqs && q in s'.reqs && p != q && HoldsOffer(s'.reqs[p], o)
      ensures !HoldsOffer(s'.reqs[q], o)
    {
      if HoldsOffer(s'.reqs[q], o) {
        LocksGained(s, step, p, o);
        LocksGained(s, step, q, o);
      }
    }
  }

  lemma LockedRowsKept(s: Sys, step: Step)
    requires LocksExclusive(s) && LockedRows(s) && Enabled(s, step)
    ensures LockedRows(Apply(s, step))
  {
    hide Enabled, Apply;
    var s' := Apply(s, step);
    forall q, o | q in s'.reqs && HoldsOffer(s'.reqs[q], o)
      ensures o in s'.offers && s'.offers[o].state == Pending
    {
      HeldRowsPending(s, step, q, o);
    }
    forall q | q in s'.reqs && Redeeming(s'.reqs[q])
      ensures s'.reqs[q].offer in s'.offers && s'.reqs[q].now < s'.offers[s'.reqs[q].offer].expiresAt
    {
      RequestEffect(s, step, q);
      RowEffect(s, step, s'.reqs[q].offer);
    }
  }

  lemma HeldRowsPending(s: Sys, step: Step, q: ReqId, o: OfferId)
    requires LocksExclusive(s) && LockedRows(s) && Enabled(s, step)
    requires q in Apply(s, step).reqs && HoldsOffer(Apply(s, step).reqs[q], o)
    ensures o in Apply(s, step).offers && Apply(s, step).offers[o].state == Pending
  {
    hide Enabled, Apply;
    LocksGained(s, step, q, o);
    if q in s.reqs && HoldsOffer(s.reqs[q], o) {
      HeldRowsStay(s, step, q, o);
    } else {
      RowEffect(s, step, o);
    }
  }

  lemma CredentialIdsKept(s: Sys, step: Step)
    requires CredentialIds(s) && Enabled(s, step)
    ensures CredentialIds(Apply(s, step))
  {
    hide Enabled, Apply;
    var s' := Apply(s, step);
    CredentialEffect(s, step);
    forall q | q in s'.reqs && s'.reqs[q].CredentialPut?
      ensures (q in s.reqs && s'.reqs[q] == s.reqs[q])
              || (step.PutCredential? && step.req == q && IdUnused(s, s'.reqs[q].id))
      ensures step.CommitIssue? ==> q != step.req
    {
      RequestEffect(s, step, q);
    }
  }

  // ---- Secrets ----

  lemma NonceEffect(s: Sys, step: Step)
    requires Enabled(s, step)
    ensures var s' := Apply(s, step);
            && (forall n :: n in s.nonceFor ==> n in s'.nonceFor && s'.nonceFor[n] == s.nonceFor[n])
            && (forall n :: n in s'.nonces ==>
                        (n in s.nonces && s'.nonces[n] == s.nonces[n])
                        || (n !in s.nonceFor && n in s'.nonceFor && s'.nonceFor[n] == s'.nonces[n].offer))
            && (step.ConsumeNonce? ==> step.nonce in s.nonces && step.nonce !in s'.nonces)
  {
  }

  /** A request with a nonce either had it already or has just consumed it. */
  lemma NonceHolder(s: Sys, step: Step, q: ReqId)
    requires Enabled(s, step) && q in Apply(s, step).reqs && HasNonce(Apply(s, step).reqs[q])
    ensures var after := Apply(s, step).reqs[q];
            || (q in s.reqs && HasNonce(s.reqs[q]) && after.nonce == s.reqs[q].nonce && after.offer == s.reqs[q].offer)
            || (step.ConsumeNonce? && step.nonce == after.nonce && step.nonce in s.nonces && step.req == q
                && s.nonces[step.nonce].offer == after.offer)
  {
  }

  lemma NoncesKept(s: Sys, step: Step)
    requires Nonces(s) && Enabled(s, step)
    ensures Nonces(Apply(s, step))
  {
    hide Enabled, Apply;
    var s' := Apply(s, step);
    NonceEffect(s, step);
    CredentialEffect(s, step);
    forall q | q in s'.reqs && HasNonce(s'.reqs[q])
      ensures NonceBound(s', s'.reqs[q].nonce, s'.reqs[q].offer)
      ensures forall p :: p in s'.reqs && p != q && HasNonce(s'.reqs[p]) ==> s'.reqs[p].nonce != s'.reqs[q].nonce
      ensures forall c :: c in s'.creds ==> s'.reqs[q].nonce != s'.creds[c].nonce
    {
      RequestNonceKept(s, step, q);
    }
    forall c | c in s'.creds ensures NonceBound(s', s'.creds[c].nonce, s'.creds[c].offer) {
      if step.CommitIssue? && c == s.reqs[step.req].id {
        assert HasNonce(s.reqs[step.req]);
      } else {
        assert c in s.creds && s'.creds[c] == s.creds[c];
      }
    }
  }

  ghost predicate NonceBound(s: Sys, n: NonceHash, o: OfferId) {
    n in s.nonceFor && s.nonceFor[n] == o && n !in s.nonces
  }

  lemma RequestNonceKept(s: Sys, step: Step, q: ReqId)
    requires Nonces(s) && Enabled(s, step) && q in Apply(s, step).reqs && HasNonce(Apply(s, step).reqs[q])
    ensures var s' := Apply(s, step);
            && NonceBound(s', s'.reqs[q].nonce, s'.reqs[q].offer)
            && (forall p :: p in s'.reqs && p != q && HasNonce(s'.reqs[p]) ==> s'.reqs[p].nonce != s'.reqs[q].nonce)
            && (forall c :: c in s'.creds ==> s'.reqs[q].nonce != s'.creds[c].nonce)
  {
    hide Enabled, Apply;
    var s' := Apply(s, step);
    NonceEffect(s, step);
    NonceHolder(s, step, q);
    forall p | p in s'.reqs && p != q && HasNonce(s'.reqs[p]) ensures s'.reqs[p].nonce != s'.reqs[q].nonce {
      NonceHolder(s, step, p);
    }
    CredentialEffect(s, step);
    RequestEffect(s, step, q);
    forall c | c in s'.creds ensures s'.reqs[q].nonce != s'.creds[c].nonce {
      if step.CommitIssue? && c == s.reqs[step.req].id {
        assert HasNonce(s.reqs[step.req]);
      } else {
        assert c in s.creds && s'.creds[c] == s.creds[c];
      }
    }
  }

  lemma TokenEffect(s: Sys, step: Step)
    requires Enabled(s, step)
    ensures var s' := Apply(s, step);
            && (forall t :: t in s.tokenFor ==> t in s'.tokenFor && s'.tokenFor[t] == s.tokenFor[t])
            && (forall t :: t in s'.tokens ==>
                        (t in s.tokens && s'.tokens[t] == s.tokens[t])
                        || (t in s'.tokenFor && s'.tokenFor[t] == s'.tokens[t].offer
                            && step.MintToken? && t == step.token
                            && forall u :: u in s.tokens ==> s.tokens[u].offer != s'.tokens[t].offer))
  {
  }

  lemma TokensKept(s: Sys, step: Step)
    requires Tokens(s) && Enabled(s, step)
    ensures Tokens(Apply(s, step))
  {
    hide Enabled, Apply, OfferFree, IdUnused, ObservedState;
    var s' := Apply(s, step);
    TokenEffect(s, step);
    CredentialEffect(s, step);
    forall q | q in s'.reqs && HasToken(s'.reqs[q])
      ensures s'.reqs[q].token in s'.tokenFor && s'.tokenFor[s'.reqs[q].token] == s'.reqs[q].offer
    {
      RequestEffect(s, step, q);
    }
    if step.CommitIssue? {
      assert HasToken(s.reqs[step.req]);
    }
  }

  // ---- Bulk cancels ----

  ghost predicate SweepOk(s: Sys, r: Req)
    requires r.Sweeping?
  {
    && r.todo <= r.snapshot && r.done <= r.snapshot
    && (forall o :: o in r.snapshot ==> o in s.offers && s.offers[o].issuer == r.issuer)
    && (forall o :: o in r.snapshot && o !in r.todo && o !in r.done ==> s.offers[o].state != Pending)
  }

  lemma SweepsKept(s: Sys, step: Step)
    requires LockedRows(s) && Sweeps(s) && Enabled(s, step)
    ensures Sweeps(Apply(s, step))
  {
    hide Enabled, Apply;
    var s' := Apply(s, step);
    forall q | q in s'.reqs && s'.reqs[q].Sweeping? ensures SweepOk(s', s'.reqs[q]) {
      SweepKept(s, step, q);
    }
  }

  lemma SweepKept(s: Sys, step: Step, q: ReqId)
    requires LockedRows(s) && Sweeps(s) && Enabled(s, step)
    requires q in Apply(s, step).reqs && Apply(s, step).reqs[q].Sweeping?
    ensures SweepOk(Apply(s, step), Apply(s, step).reqs[q])
  {
    hide Enabled, Apply, LockedRows, OfferFree;
    var s' := Apply(s, step);
    RequestEffect(s, step, q);
    forall o | o in s'.reqs[q].snapshot
      ensures o in s.offers && o in s'.offers && RowForward(s.offers[o], s'.offers[o])
    {
      RowsForward(s, step, o);
    }
  }

  // ---- Every reachable state ----

  lemma InvKept(s: Sys, step: Step, s': Sys)
    requires Inv(s) && Next(s, step, s')
    ensures Inv(s')
  {
    hide RowsOk, CredentialsMatchOffers, LocksExclusive, LockedRows, CredentialIds, Nonces, Tokens, Sweeps,
         Apply, Enabled;
    RowsOkKept(s, step);
    CredentialsKept(s, step);
    LocksExclusiveKept(s, step);
    LockedRowsKept(s, step);
    CredentialIdsKept(s, step);
    NoncesKept(s, step);
    TokensKept(s, step);
    SweepsKept(s, step);
  }

  lemma InvInitially()
    ensures Inv(Empty)
  {
    NothingBreaksInv(Empty);
  }

  lemma NothingBreaksInv(s: Sys)
    requires s.offers.Keys == {} && s.reqs.Keys == {} && s.creds.Keys == {} && s.tokens.Keys == {} && s.nonces.Keys == {}
    ensures Inv(s)
  {
  }

  lemma {:induction false} InvHolds(states: seq<Sys>, steps: seq<Step>, n: nat)
    requires Run(states, steps) && n <= |steps|
    ensures Inv(states[n])
  {
    hide Inv, Next;
    if n == 0 {
      InvInitially();
    } else {
      InvHolds(states, steps, n - 1);
      assert Next(states[n - 1], steps[n - 1], states[n - 1 + 1]);
      InvKept(states[n - 1], steps[n - 1], states[n]);
    }
  }
}
