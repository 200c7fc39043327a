/** Each handler of the offer store, left undisturbed, is a sequence of the protocol's
    steps with the same effect. */
module OfferHandlers {
  import opened Wrappers
  import opened Offers
  import opened OfferProtocol
  import opened Undisturbed

  function WithReq(s: Sys, r: ReqId, q: Req): Sys {
    s.(reqs := s.reqs[r := q])
  }

  // ---- Token ----

  function Minted(s: Sys, r: ReqId, o: OfferId, issuer: OfferIssuer, now: Time, token: TokenHash, ttl: nat): Sys {
    WithReq(s, r, TokenMinted(o, now)).(tokens := s.tokens[token := TokenRow(issuer, o, now + ttl)],
                                        tokenFor := s.tokenFor[token := o])
  }

  lemma TokenMints(s: Sys, r: ReqId, o: OfferId, issuer: OfferIssuer, code: Code, now: Time, token: TokenHash, ttl: nat)
    requires r !in s.reqs && o in s.offers && Exchangeable(s.offers[o], o, s.tokens, issuer, code, now)
    requires token !in s.tokenFor
    ensures Next(s, ReadForToken(r, o, issuer, code, now), WithReq(s, r, TokenRead(o, now)))
    ensures Next(WithReq(s, r, TokenRead(o, now)), MintToken(r, token, ttl), Minted(s, r, o, issuer, now, token, ttl))
  {
    assert Apply(WithReq(s, r, TokenRead(o, now)), MintToken(r, token, ttl)) == Minted(s, r, o, issuer, now, token, ttl);
  }

  lemma NonceMints(b: Sys, reqs: map<ReqId, Req>, r: ReqId, o: OfferId, now: Time, nonce: NonceHash, ttl: nat)
    requires r !in reqs && b.reqs == reqs[r := TokenMinted(o, now)] && nonce !in b.nonceFor
    ensures Next(b, MintNonce(r, nonce, ttl),
                 b.(nonces := b.nonces[nonce := NonceRow(o, now + ttl)], nonceFor := b.nonceFor[nonce := o], reqs := reqs))
  {
    assert b.reqs - {r} == reqs;
  }

  lemma TokenIsThreeSteps(s: Sys, r: ReqId, o: OfferId, issuer: OfferIssuer, code: Code, now: Time,
                          token: TokenHash, nonce: NonceHash, tokenTtl: nat, nonceTtl: nat)
    requires r !in s.reqs && o in s.offers && Exchangeable(s.offers[o], o, s.tokens, issuer, code, now)
    requires token !in s.tokenFor && nonce !in s.nonceFor
    ensures Leads(Next, s, [ReadForToken(r, o, issuer, code, now), MintToken(r, token, tokenTtl), MintNonce(r, nonce, nonceTtl)],
                  s.(tokens := s.tokens[token := TokenRow(issuer, o, now + tokenTtl)],
                     nonces := s.nonces[nonce := NonceRow(o, now + nonceTtl)],
                     tokenFor := s.tokenFor[token := o], nonceFor := s.nonceFor[nonce := o]))
  {
    hide Leads, Next, ObservedState, Exchangeable;
    var a := WithReq(s, r, TokenRead(o, now));
    var b := Minted(s, r, o, issuer, now, token, tokenTtl);
    TokenMints(s, r, o, issuer, code, now, token, tokenTtl);
    NonceMints(b, s.reqs, r, o, now, nonce, nonceTtl);
    LeadsByThree(Next, s, ReadForToken(r, o, issuer, code, now), a, MintToken(r, token, tokenTtl), b,
                 MintNonce(r, nonce, nonceTtl),
                 b.(nonces := b.nonces[nonce := NonceRow(o, now + nonceTtl)],
                    nonceFor := b.nonceFor[nonce := o], reqs := s.reqs));
  }

  // ---- Credential ----

  /** The request would succeed and nobody holds or backs its offer. */
  ghost predicate CredentialReady(s: Sys, r: ReqId, issuer: OfferIssuer, token: TokenHash, nonce: NonceHash,
                                  now: Time, id: CredentialNo) {
    && r !in s.reqs && token in s.tokens && s.tokens[token].expiresAt > now && s.tokens[token].issuer == issuer
    && var o := s.tokens[token].offer;
       && o in s.offers && ObservedState(s.offers[o], now) == Pending
       && nonce in s.nonces && s.nonces[nonce].expiresAt > now && s.nonces[nonce].offer == o
       && OfferFree(s, r, o) && OfferUnbacked(s, r, o) && IdUnused(s, id)
  }

  lemma CredentialReads(s: Sys, r: ReqId, issuer: OfferIssuer, token: TokenHash, nonce: NonceHash, now: Time, id: CredentialNo)
    requires CredentialReady(s, r, issuer, token, nonce, now, id)
    ensures var o := s.tokens[token].offer;
            var a := WithReq(s, r, TokenFound(token, o));
            var b := WithReq(s, r, OfferSeen(token, o, now));
            && Next(s, FindToken(r, token, issuer, now), a) && Next(a, SeeOffer(r, now), b)
            && Next(b, ConsumeNonce(r, nonce),
                    WithReq(s, r, NonceTaken(token, o, now, nonce)).(nonces := s.nonces - {nonce}))
  {
    hide OfferFree, OfferUnbacked, IdUnused;
    var o := s.tokens[token].offer;
    var a := WithReq(s, r, TokenFound(token, o));
    assert Apply(a, SeeOffer(r, now)) == WithReq(s, r, OfferSeen(token, o, now));
    var b := WithReq(s, r, OfferSeen(token, o, now));
    assert Apply(b, ConsumeNonce(r, nonce)) == WithReq(s, r, NonceTaken(token, o, now, nonce)).(nonces := s.nonces - {nonce});
  }

  /** After the nonce: lock, insert, commit. `u` is the state with the nonce gone. */
  lemma CredentialWrites(u: Sys, r: ReqId, o: OfferId, token: TokenHash, nonce: NonceHash, now: Time, id: CredentialNo)
    requires r !in u.reqs && o in u.offers && ObservedState(u.offers[o], now) == Pending
    requires OfferFree(u, r, o) && OfferUnbacked(u, r, o) && IdUnused(u, id)
    ensures var c := WithReq(u, r, NonceTaken(token, o, now, nonce));
            var d := WithReq(u, r, OfferLocked(token, o, now, nonce));
            var e := WithReq(u, r, CredentialPut(token, o, now, nonce, id));
            && Next(c, LockOffer(r), d) && Next(d, PutCredential(r, id), e)
            && Next(e, CommitIssue(r),
                    u.(offers := u.offers[o := Issue(u.offers[o], now)], tokens := u.tokens - {token},
                       creds := u.creds[id := OfferCredential(o, now, nonce, token)]))
  {
    hide Next, ObservedState, OfferFree, OfferUnbacked, IdUnused;
    LockAlone(u, r, o, token, nonce, now);
    PutAlone(u, r, o, token, nonce, now, id);
    CommitAlone(u, r, o, token, nonce, now, id);
  }

  lemma LockAlone(u: Sys, r: ReqId, o: OfferId, token: TokenHash, nonce: NonceHash, now: Time)
    requires r !in u.reqs && o in u.offers && ObservedState(u.offers[o], now) == Pending && OfferFree(u, r, o)
    ensures Next(WithReq(u, r, NonceTaken(token, o, now, nonce)), LockOffer(r),
                 WithReq(u, r, OfferLocked(token, o, now, nonce)))
  {
    hide ObservedState;
    var c := WithReq(u, r, NonceTaken(token, o, now, nonce));
    assert Apply(c, LockOffer(r)) == WithReq(u, r, OfferLocked(token, o, now, nonce));
  }

  lemma PutAlone(u: Sys, r: ReqId, o: OfferId, token: TokenHash, nonce: NonceHash, now: Time, id: CredentialNo)
    requires r !in u.reqs && OfferUnbacked(u, r, o) && IdUnused(u, id)
    ensures Next(WithReq(u, r, OfferLocked(token, o, now, nonce)), PutCredential(r, id),
                 WithReq(u, r, CredentialPut(token, o, now, nonce, id)))
  {
    var d := WithReq(u, r, OfferLocked(token, o, now, nonce));
    assert Apply(d, PutCredential(r, id)) == WithReq(u, r, CredentialPut(token, o, now, nonce, id));
  }

  lemma CommitAlone(u: Sys, r: ReqId, o: OfferId, token: TokenHash, nonce: NonceHash, now: Time, id: CredentialNo)
    requires r !in u.reqs && o in u.offers
    ensures Next(WithReq(u, r, CredentialPut(token, o, now, nonce, id)), CommitIssue(r),
                 u.(offers := u.offers[o := Issue(u.offers[o], now)], tokens := u.tokens - {token},
                    creds := u.creds[id := OfferCredential(o, now, nonce, token)]))
  {
    assert WithReq(u, r, CredentialPut(token, o, now, nonce, id)).reqs - {r} == u.reqs;
  }

  lemma CredentialIsSixSteps(s: Sys, r: ReqId, issuer: OfferIssuer, token: TokenHash, nonce: NonceHash,
                             now: Time, id: CredentialNo)
    requires CredentialReady(s, r, issuer, token, nonce, now, id)
    ensures var o := s.tokens[token].offer;
            Leads(Next, s,
                  [FindToken(r, token, issuer, now), SeeOffer(r, now), ConsumeNonce(r, nonce)]
                  + [LockOffer(r), PutCredential(r, id), CommitIssue(r)],
                  s.(offers := s.offers[o := Issue(s.offers[o], now)], nonces := s.nonces - {nonce},
                     tokens := s.tokens - {token},
                     creds := s.creds[id := OfferCredential(o, now, nonce, token)]))
  {
    var o := s.tokens[token].offer;
    var u := s.(nonces := s.nonces - {nonce});
    QuietWithoutNonce(s, r, o, id, nonce);
    hide Next, Leads, OfferFree, OfferUnbacked, IdUnused;
    CredentialReads(s, r, issuer, token, nonce, now, id);
    CredentialWrites(u, r, o, token, nonce, now, id);
    var a := WithReq(s, r, TokenFound(token, o));
    var b := WithReq(s, r, OfferSeen(token, o, now));
    var c := WithReq(u, r, NonceTaken(token, o, now, nonce));
    var d := WithReq(u, r, OfferLocked(token, o, now, nonce));
    var e := WithReq(u, r, CredentialPut(token, o, now, nonce, id));
    var end := u.(offers := u.offers[o := Issue(u.offers[o], now)], tokens := u.tokens - {token},
                  creds := u.creds[id := OfferCredential(o, now, nonce, token)]);
    LeadsByThree(Next, s, FindToken(r, token, issuer, now), a, SeeOffer(r, now), b, ConsumeNonce(r, nonce), c);
    LeadsByThree(Next, c, LockOffer(r), d, PutCredential(r, id), e, CommitIssue(r), end);
    LeadsOn(Next, s, [FindToken(r, token, issuer, now), SeeOffer(r, now), ConsumeNonce(r, nonce)], c,
            [LockOffer(r), PutCredential(r, id), CommitIssue(r)], end);
  }

  lemma QuietWithoutNonce(s: Sys, r: ReqId, o: OfferId, id: CredentialNo, nonce: NonceHash)
    requires OfferFree(s, r, o) && OfferUnbacked(s, r, o) && IdUnused(s, id)
    ensures var u := s.(nonces := s.nonces - {nonce});
            OfferFree(u, r, o) && OfferUnbacked(u, r, o) && IdUnused(u, id)
  {
  }

  // ---- Cancel ----

  lemma CancelIsTwoSteps(s: Sys, r: ReqId, o: OfferId, now: Time)
    requires r !in s.reqs && o in s.offers && s.offers[o].state == Pending && OfferFree(s, r, o)
    ensures Leads(Next, s, [ReadForCancel(r, o, now), CancelRow(r)],
                  s.(offers := s.offers[o := Cancel(s.offers[o], now)]))
  {
    hide Leads;
    var a := WithReq(s, r, CancelRead(o, now));
    assert Apply(s, ReadForCancel(r, o, now)) == a;
    assert a.reqs - {r} == s.reqs;
    LeadsByTwo(Next, s, ReadForCancel(r, o, now), a, CancelRow(r), Apply(a, CancelRow(r)));
  }

  // ---- Bulk cancel ----

  /** Nobody else holds any of the offers. */
  ghost predicate AllFree(s: Sys, r: ReqId, rows: set<OfferId>) {
    forall o :: o in rows ==> o in s.offers && s.offers[o].state == Pending && OfferFree(s, r, o)
  }

  lemma SweepOne(s: Sys, r: ReqId, issuer: OfferIssuer, now: Time, rows: set<OfferId>, todo: set<OfferId>, o: OfferId)
    requires r !in s.reqs && AllFree(s, r, rows) && o in todo && todo <= rows
    ensures Next(WithReq(s, r, Sweeping(issuer, now, rows, todo, rows - todo)), SweepRow(r, o),
                 WithReq(s, r, Sweeping(issuer, now, rows, todo - {o}, rows - (todo - {o}))))
  {
    var a := WithReq(s, r, Sweeping(issuer, now, rows, todo, rows - todo));
    assert OfferFree(s, r, o);
    assert rows - todo + {o} == rows - (todo - {o});
    assert Apply(a, SweepRow(r, o)) == WithReq(s, r, Sweeping(issuer, now, rows, todo - {o}, rows - (todo - {o})));
  }

  lemma {:induction false} SweepRest(s: Sys, r: ReqId, issuer: OfferIssuer, now: Time, rows: set<OfferId>, todo: set<OfferId>)
    returns (steps: seq<Step>)
    requires r !in s.reqs && AllFree(s, r, rows) && todo <= rows
    ensures Leads(Next, WithReq(s, r, Sweeping(issuer, now, rows, todo, rows - todo)), steps,
                  WithReq(s, r, Sweeping(issuer, now, rows, {}, rows)))
    decreases todo
  {
    hide Next, AllFree, Leads;
    var a := WithReq(s, r, Sweeping(issuer, now, rows, todo, rows - todo));
    if todo == {} {
      steps := [];
      assert rows - todo == rows;
      LeadsNowhere(Next, a);
    } else {
      var o :| o in todo;
      var b := WithReq(s, r, Sweeping(issuer, now, rows, todo - {o}, rows - (todo - {o})));
      SweepOne(s, r, issuer, now, rows, todo, o);
      var rest := SweepRest(s, r, issuer, now, rows, todo - {o});
      LeadsNowhere(Next, a);
      LeadsThen(Next, a, [], a, SweepRow(r, o), b);
      LeadsOn(Next, a, [] + [SweepRow(r, o)], b, rest, WithReq(s, r, Sweeping(issuer, now, rows, {}, rows)));
      steps := [] + [SweepRow(r, o)] + rest;
    }
  }

  function SweptRows(s: Sys, issuer: OfferIssuer): set<OfferId> {
    set o | o in s.offers && SweptBy(s.offers[o], issuer)
  }

  /** What the handler's loop leaves of the offers. */
  function AllCancelled(s: Sys, issuer: OfferIssuer, now: Time): Sys {
    s.(offers := map o | o in s.offers ::
         if SweptBy(s.offers[o], issuer) then Cancel(s.offers[o], now) else s.offers[o])
  }

  lemma SweepStartsAlone(s: Sys, r: ReqId, issuer: OfferIssuer, now: Time)
    requires r !in s.reqs
    ensures var rows := SweptRows(s, issuer);
            Next(s, StartSweep(r, issuer, now), WithReq(s, r, Sweeping(issuer, now, rows, rows, rows - rows)))
  {
    assert SweptRows(s, issuer) - SweptRows(s, issuer) == {};
  }

  lemma CommitSweepOf(s: Sys, r: ReqId, issuer: OfferIssuer, now: Time, rows: set<OfferId>)
    requires r !in s.reqs
    ensures Next(WithReq(s, r, Sweeping(issuer, now, rows, {}, rows)), CommitSweep(r),
                 s.(offers := map o | o in s.offers :: if o in rows then Cancel(s.offers[o], now) else s.offers[o]))
  {
    assert WithReq(s, r, Sweeping(issuer, now, rows, {}, rows)).reqs - {r} == s.reqs;
  }

  lemma SweptRowsAreSwept(s: Sys, issuer: OfferIssuer, now: Time, rows: set<OfferId>)
    requires forall o :: o in s.offers ==> (o in rows <==> SweptBy(s.offers[o], issuer))
    ensures s.(offers := map o | o in s.offers :: if o in rows then Cancel(s.offers[o], now) else s.offers[o])
         == AllCancelled(s, issuer, now)
  {
  }

  lemma SweepCommitsAlone(s: Sys, r: ReqId, issuer: OfferIssuer, now: Time)
    requires r !in s.reqs
    ensures var rows := SweptRows(s, issuer);
            Next(WithReq(s, r, Sweeping(issuer, now, rows, {}, rows)), CommitSweep(r), AllCancelled(s, issuer, now))
  {
    var rows := SweptRows(s, issuer);
    assert forall o :: o in s.offers ==> (o in rows <==> SweptBy(s.offers[o], issuer));
    hide *;
    CommitSweepOf(s, r, issuer, now, rows);
    SweptRowsAreSwept(s, issuer, now, rows);
  }

  /** A bulk cancel that nobody disturbs cancels what the handler's loop cancels. */
  lemma BulkCancelIsItsSteps(s: Sys, r: ReqId, issuer: OfferIssuer, now: Time) returns (steps: seq<Step>)
    requires r !in s.reqs && AllFree(s, r, SweptRows(s, issuer))
    ensures Leads(Next, s, steps, AllCancelled(s, issuer, now))
  {
    hide Next, AllFree, Leads, AllCancelled;
    var rows := SweptRows(s, issuer);
    SweepStartsAlone(s, r, issuer, now);
    var rest := SweepRest(s, r, issuer, now, rows, rows);
    var a := WithReq(s, r, Sweeping(issuer, now, rows, rows, rows - rows));
    var b := WithReq(s, r, Sweeping(issuer, now, rows, {}, rows));
    LeadsNowhere(Next, s);
    LeadsThen(Next, s, [], s, StartSweep(r, issuer, now), a);
    LeadsOn(Next, s, [] + [StartSweep(r, issuer, now)], a, rest, b);
    SweepCommitsAlone(s, r, issuer, now);
    steps := [] + [StartSweep(r, issuer, now)] + rest + [CommitSweep(r)];
    LeadsThen(Next, s, [] + [StartSweep(r, issuer, now)] + rest, b, CommitSweep(r), AllCancelled(s, issuer, now));
  }

  /** Undisturbed steps from the start are a run of the protocol. */
  lemma UndisturbedStepsAreARun(steps: seq<Step>, s: Sys) returns (states: seq<Sys>)
    requires Leads(Next, Empty, steps, s)
    ensures Run(states, steps) && states[|steps|] == s
  {
    states := LeadsTakesItsSteps(Next, Empty, steps, s);
  }
}
