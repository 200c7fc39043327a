/** Credential offers: the aggregate, its rows, and the uninterrupted handlers. */
module Offers {
  import opened Wrappers

  type OfferId = nat
  type OfferIssuer = nat
  type CredentialNo = nat
  type Code = string
  type TokenHash = string
  type NonceHash = string
  type Time = int

  datatype OfferState = Pending | Issued | Cancelled | Expired

  datatype OfferError = StateTransitionNotAllowed | NotFound | Conflict | InvalidGrant | InvalidToken | InvalidProof
                      | InvalidRequest | InvalidCredentialRequest | Internal

  datatype OfferRow = OfferRow(
    issuer: OfferIssuer,
    state: OfferState,
    code: Option<Code>,
    expiresAt: Time,
    issuedAt: Option<Time>,
    cancelledAt: Option<Time>)

  datatype TokenRow = TokenRow(issuer: OfferIssuer, offer: OfferId, expiresAt: Time)

  datatype NonceRow = NonceRow(offer: OfferId, expiresAt: Time)

  /** A credential, with the nonce and token its request presented. */
  datatype OfferCredential = OfferCredential(offer: OfferId, issuedAt: Time, nonce: NonceHash, token: TokenHash)

  function NewOffer(issuer: OfferIssuer, code: Code, expiresAt: Time): OfferRow {
    OfferRow(issuer, Pending, Some(code), expiresAt, None, None)
  }

  function ObservedState(row: OfferRow, now: Time): OfferState {
    if row.state == Pending && now >= row.expiresAt then Expired else row.state
  }

  function Issue(row: OfferRow, now: Time): OfferRow {
    row.(state := Issued, issuedAt := Some(now), code := None)
  }

  function Cancel(row: OfferRow, now: Time): OfferRow {
    row.(state := Cancelled, cancelledAt := Some(now), code := None)
  }

  /** What every stored row satisfies: the code is there exactly while Pending, the
      stamps tell the terminal state apart, and redemption precedes expiry. */
  predicate RowOk(row: OfferRow) {
    && (row.state == Pending <==> row.code.Some?)
    && (row.state == Issued <==> row.issuedAt.Some?)
    && (row.state == Cancelled <==> row.cancelledAt.Some?)
    && (row.issuedAt.Some? ==> row.issuedAt.value < row.expiresAt)
    && row.state != Expired
  }

  class CredentialOffer {
    var row: OfferRow

    constructor (issuer: OfferIssuer, code: Code, expiresAt: Time)
      ensures row == NewOffer(issuer, code, expiresAt)
      ensures row.issuer == issuer && row.state == Pending && row.code == Some(code) && row.expiresAt == expiresAt
              && row.issuedAt == row.cancelledAt == None
    {
      row := OfferRow(issuer, Pending, Some(code), expiresAt, None, None);
    }

    constructor Load(stored: OfferRow)
      ensures row == stored
    {
      row := stored;
    }

    method TryIssue(now: Time) returns (r: Result<(), OfferError>)
      modifies this
      ensures r.Ok? <==> ObservedState(old(row), now) == Pending
      ensures r.Ok? ==> row == Issue(old(row), now)
      ensures r.Err? ==> row == old(row) && r.error == StateTransitionNotAllowed
      ensures r.Ok? <==> old(row).state == Pending && now < old(row).expiresAt
      ensures r.Ok? ==> row == old(row).(state := Issued, issuedAt := Some(now), code := None)
      ensures RowOk(old(row)) ==> RowOk(row)
    {
      if row.state == Pending && now < row.expiresAt {
        row := row.(state := Issued);
        row := row.(issuedAt := Some(now));
        row := row.(code := None);
        return Ok(());
      }
      r := Err(StateTransitionNotAllowed);
    }

    /** Expiry does not stand in the way of a cancel. */
    method TryCancel(now: Time) returns (r: Result<(), OfferError>)
      modifies this
      ensures r.Ok? <==> old(row).state == Pending
      ensures r.Ok? ==> row == Cancel(old(row), now)
      ensures r.Err? ==> row == old(row) && r.error == StateTransitionNotAllowed
      ensures r.Ok? ==> row == old(row).(state := Cancelled, cancelledAt := Some(now), code := None)
      ensures RowOk(old(row)) ==> RowOk(row)
    {
      if row.state == Pending {
        row := row.(state := Cancelled);
        row := row.(cancelledAt := Some(now));
        row := row.(code := None);
        return Ok(());
      }
      r := Err(StateTransitionNotAllowed);
    }
  }

  predicate SweptBy(row: OfferRow, issuer: OfferIssuer) {
    row.issuer == issuer && row.state == Pending
  }

  /** The lookup of a code within an issuer. */
  predicate CodeOf(row: OfferRow, issuer: OfferIssuer, code: Code) {
    row.code == Some(code) && row.issuer == issuer
  }

  ghost predicate CodesUnique(offers: map<OfferId, OfferRow>) {
    forall a, b :: a in offers && b in offers && a != b && offers[a].code.Some? ==> offers[a].code != offers[b].code
  }

  predicate Exchangeable(row: OfferRow, o: OfferId, tokens: map<TokenHash, TokenRow>,
                         issuer: OfferIssuer, code: Code, now: Time) {
    && CodeOf(row, issuer, code) && ObservedState(row, now) == Pending
    && forall t :: t in tokens ==> tokens[t].offer != o
  }

  /** The checks of a credential request between the offer read and the nonce, in order. */
  datatype RequestChecks = RequestChecks(vctMatches: bool, typeKnown: bool, issuerHasKey: bool, proofValid: bool)
  {
    function Verdict(): Result<(), OfferError> {
      if !vctMatches then Err(InvalidCredentialRequest)
      else if !typeKnown then Err(Internal)
      else if !issuerHasKey then Err(InvalidRequest)
      else if !proofValid then Err(InvalidProof)
      else Ok(())
    }
  }

  class OfferStore {
    var offers: map<OfferId, OfferRow>
    var tokens: map<TokenHash, TokenRow>
    var nonces: map<NonceHash, NonceRow>
    var credentials: map<CredentialNo, OfferCredential>

    constructor ()
      ensures offers == map[] && tokens == map[] && nonces == map[] && credentials == map[]
    {
      offers, tokens, nonces, credentials := map[], map[], map[], map[];
    }

    /** `/token`: exchanges a pending, unexpired code for an access token and a
        nonce. An offer that already has a token row refuses. Nothing in the table keeps
        two offers from sharing a code; the lookup then takes either. */
    method Token(issuer: OfferIssuer, code: Code, now: Time, token: TokenHash, nonce: NonceHash,
                 tokenTtl: nat, nonceTtl: nat)
      returns (r: Result<OfferId, OfferError>)
      requires token !in tokens && nonce !in nonces
      modifies this`tokens, this`nonces
      ensures r.Ok? ==> var o := r.value;
                        && o in offers && Exchangeable(offers[o], o, old(tokens), issuer, code, now)
                        && tokens == old(tokens)[token := TokenRow(issuer, o, now + tokenTtl)]
                        && nonces == old(nonces)[nonce := NonceRow(o, now + nonceTtl)]
      ensures r.Ok? ==> var row := offers[r.value];
                        && row.code == Some(code) && row.issuer == issuer && row.state == Pending && now < row.expiresAt
                        && forall t :: t in old(tokens) ==> old(tokens)[t].offer != r.value
      ensures r.Err? ==> (forall o :: o in offers ==> offers[o].code != Some(code) || offers[o].issuer != issuer)
                         || exists o :: o in offers && offers[o].code == Some(code) && offers[o].issuer == issuer
                                        && (offers[o].state != Pending || now >= offers[o].expiresAt
                                            || exists t :: t in old(tokens) && old(tokens)[t].offer == o)
      ensures r.Err? ==> r.error == InvalidGrant && tokens == old(tokens) && nonces == old(nonces)
      ensures r.Err? ==> (forall o :: o in offers ==> !CodeOf(offers[o], issuer, code))
                         || exists o :: o in offers && CodeOf(offers[o], issuer, code)
                                        && !Exchangeable(offers[o], o, old(tokens), issuer, code, now)
      ensures CodesUnique(offers) ==>
                (r.Ok? <==> exists o :: o in offers && Exchangeable(offers[o], o, old(tokens), issuer, code, now))
    {
      if o :| o in offers && CodeOf(offers[o], issuer, code) {
        if ObservedState(offers[o], now) != Pending {
          assert !Exchangeable(offers[o], o, old(tokens), issuer, code, now);
          return Err(InvalidGrant);
        }
        if t :| t in tokens && tokens[t].offer == o {
          assert !Exchangeable(offers[o], o, old(tokens), issuer, code, now);
          return Err(InvalidGrant);
        }
        tokens := tokens[token := TokenRow(issuer, o, now + tokenTtl)];
        nonces := nonces[nonce := NonceRow(o, now + nonceTtl)];
        r := Ok(o);
        assert o in offers && Exchangeable(offers[o], o, old(tokens), issuer, code, now);
        return;
      }
      r := Err(InvalidGrant);
    }

    /** The presented nonce still exists and has not expired. */
    predicate NonceLive(nonce: NonceHash, now: Time)
      reads this
    {
      nonce in nonces && nonces[nonce].expiresAt > now
    }

    predicate Redeemable(issuer: OfferIssuer, token: TokenHash, now: Time)
      reads this
    {
      token in tokens && tokens[token].expiresAt > now && tokens[token].issuer == issuer
      && tokens[token].offer in offers && ObservedState(offers[tokens[token].offer], now) == Pending
    }

    /** `/credential`: the nonce is gone once it has been looked at, whatever
        follows; everything else changes together or not at all. `finishes` stands for
        the slot, the signature and the commit. */
    method Credential(issuer: OfferIssuer, token: TokenHash, nonce: NonceHash, now: Time, id: CredentialNo,
                      checks: RequestChecks, finishes: bool)
      returns (r: Result<(), OfferError>)
      requires id !in credentials
      modifies this
      ensures r.Ok? <==> old(Redeemable(issuer, token, now)) && checks.Verdict().Ok? && old(NonceLive(nonce, now))
                         && old(nonces)[nonce].offer == old(tokens)[token].offer
                         && (forall c :: c in old(credentials) ==>
                                           old(credentials)[c].offer != old(tokens)[token].offer)
                         && finishes
      ensures r.Ok? ==> var o := old(tokens)[token].offer;
                        && offers == old(offers)[o := Issue(old(offers)[o], now)]
                        && tokens == old(tokens) - {token}
                        && credentials == old(credentials)[id := OfferCredential(o, now, nonce, token)]
      ensures r.Err? ==> offers == old(offers) && tokens == old(tokens) && credentials == old(credentials)
      ensures nonces == if old(Redeemable(issuer, token, now)) && checks.Verdict().Ok? && old(NonceLive(nonce, now))
                        then old(nonces) - {nonce} else old(nonces)
      ensures !old(Redeemable(issuer, token, now)) ==> r == Err(InvalidToken)
      // In the columns' own terms: when it may succeed and what it stores.
      ensures r.Ok? ==>
                && token in old(tokens) && old(tokens)[token].expiresAt > now && old(tokens)[token].issuer == issuer
                && nonce in old(nonces) && old(nonces)[nonce].expiresAt > now
                && var o := old(tokens)[token].offer;
                   && old(nonces)[nonce].offer == o && o in old(offers)
                   && old(offers)[o].state == Pending && now < old(offers)[o].expiresAt
                   && offers == old(offers)[o := old(offers)[o].(state := Issued, issuedAt := Some(now), code := None)]
      ensures r.Ok? ==> checks.vctMatches && checks.typeKnown && checks.issuerHasKey && checks.proofValid
      ensures (token !in old(tokens) || old(tokens)[token].expiresAt <= now || old(tokens)[token].issuer != issuer
               || old(tokens)[token].offer !in old(offers) || old(offers)[old(tokens)[token].offer].state != Pending
               || now >= old(offers)[old(tokens)[token].offer].expiresAt)
              <==> r == Err(InvalidToken)
      ensures r != Err(InvalidToken) && !checks.vctMatches ==> r == Err(InvalidCredentialRequest)
      ensures r != Err(InvalidToken) && checks.vctMatches && !checks.typeKnown ==> r == Err(Internal)
      ensures r != Err(InvalidToken) && checks.vctMatches && checks.typeKnown && !checks.issuerHasKey ==>
                r == Err(InvalidRequest)
      ensures r != Err(InvalidToken) && !checks.proofValid
              && checks.vctMatches && checks.typeKnown && checks.issuerHasKey ==>
                r == Err(InvalidProof)
      ensures r == Err(InvalidToken) || !checks.vctMatches || !checks.typeKnown || !checks.issuerHasKey
              || !checks.proofValid || nonce !in old(nonces) || old(nonces)[nonce].expiresAt <= now ==>
                nonces == old(nonces)
      ensures !(r == Err(InvalidToken) || !checks.vctMatches || !checks.typeKnown || !checks.issuerHasKey
                || !checks.proofValid || nonce !in old(nonces) || old(nonces)[nonce].expiresAt <= now) ==>
                nonces == old(nonces) - {nonce} && (r.Err? && old(nonces)[nonce].offer != old(tokens)[token].offer
                                                    ==> r.error == InvalidProof)
      ensures old(Redeemable(issuer, token, now)) && checks.Verdict().Err? ==> r == checks.Verdict()
      ensures old(Redeemable(issuer, token, now)) && checks.Verdict().Ok? && r.Err? ==>
                r.error == if old(NonceLive(nonce, now)) && old(nonces)[nonce].offer == old(tokens)[token].offer
                           then Internal else InvalidProof
    {
      if token !in tokens || tokens[token].expiresAt <= now || tokens[token].issuer != issuer
         || tokens[token].offer !in offers {
        return Err(InvalidToken);
      }
      var o := tokens[token].offer;
      if ObservedState(offers[o], now) != Pending {
        return Err(InvalidToken);
      }
      if !checks.vctMatches {
        return Err(InvalidCredentialRequest);
      }
      if !checks.typeKnown {
        return Err(Internal);
      }
      if !checks.issuerHasKey {
        return Err(InvalidRequest);
      }
      if !checks.proofValid {
        return Err(InvalidProof);
      }
      if nonce !in nonces || nonces[nonce].expiresAt <= now {
        return Err(InvalidProof);
      }
      var bound := nonces[nonce].offer;
      nonces := nonces - {nonce};
      if bound != o {
        return Err(InvalidProof);
      }
      var offer := new CredentialOffer.Load(offers[o]);
      var issued := offer.TryIssue(now);
      assert issued.Ok?;
      if c :| c in credentials && credentials[c].offer == o {
        return Err(Internal);
      }
      if !finishes {
        return Err(Internal);
      }
      credentials := credentials[id := OfferCredential(o, now, nonce, token)];
      offers := offers[o := offer.row];
      tokens := tokens - {token};
      r := Ok(());
    }

    /** Cancelling twice answers Ok and keeps the first stamp. */
    method CancelOffer(issuer: OfferIssuer, o: OfferId, now: Time) returns (r: Result<OfferRow, OfferError>)
      modifies this`offers
      ensures o !in old(offers) || old(offers)[o].issuer != issuer ==> r == Err(NotFound)
      ensures o in old(offers) && old(offers)[o].issuer == issuer ==>
                match old(offers)[o].state
                case Pending => r == Ok(Cancel(old(offers)[o], now)) && offers == old(offers)[o := r.value]
                case Cancelled => r == Ok(old(offers)[o]) && offers == old(offers)
                case _ => r == Err(Conflict)
      ensures o in old(offers) && old(offers)[o].issuer == issuer && old(offers)[o].state == Pending ==>
                offers == old(offers)[o := old(offers)[o].(state := Cancelled, cancelledAt := Some(now), code := None)]
      ensures r.Err? ==> offers == old(offers)
    {
      if o !in offers || offers[o].issuer != issuer {
        return Err(NotFound);
      }
      var offer := new CredentialOffer.Load(offers[o]);
      match offer.row.state {
        case Cancelled =>
        case Pending =>
          var cancelled := offer.TryCancel(now);
          offers := offers[o := offer.row];
        case _ => return Err(Conflict);
      }
      r := Ok(offer.row);
    }

    /** Cancels every stored-pending offer of the issuer, expired or not, and
        answers how many there were. */
    method CancelAllPendingForIssuer(issuer: OfferIssuer, now: Time) returns (count: nat)
      modifies this`offers
      ensures count == |set o | o in old(offers) && SweptBy(old(offers)[o], issuer)|
      ensures offers == map o | o in old(offers) ::
                          if SweptBy(old(offers)[o], issuer) then Cancel(old(offers)[o], now) else old(offers)[o]
      ensures count == |set o | o in old(offers) && old(offers)[o].issuer == issuer && old(offers)[o].state == Pending|
      ensures offers.Keys == old(offers).Keys
      ensures forall o :: o in old(offers) ==>
                offers[o] == if old(offers)[o].issuer == issuer && old(offers)[o].state == Pending
                             then old(offers)[o].(state := Cancelled, cancelledAt := Some(now), code := None)
                             else old(offers)[o]
    {
      ghost var before := offers;
      var todo := set o | o in offers && SweptBy(offers[o], issuer);
      count := |todo|;
      assert todo == set o | o in old(offers) && SweptBy(old(offers)[o], issuer);
      assert todo == set o | o in old(offers) && old(offers)[o].issuer == issuer && old(offers)[o].state == Pending;
      while todo != {}
        invariant todo <= offers.Keys == before.Keys
        invariant forall o :: o in todo ==> offers[o] == before[o] && SweptBy(before[o], issuer)
        invariant forall o :: o in before && o !in todo ==>
                    offers[o] == if SweptBy(before[o], issuer) then Cancel(before[o], now) else before[o]
        decreases todo
      {
        var o :| o in todo;
        offers := offers[o := Cancel(offers[o], now)];
        todo := todo - {o};
      }
    }
  }
}
