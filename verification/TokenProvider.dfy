/** The OAuth2 token provider of one tenant, each call run without interruption. */
module TokenProvider {
  import opened Wrappers

  type AccessToken = nat
  type RefreshToken = nat
  /** Seconds. */
  type Time = int

  datatype Cached = Cached(access: AccessToken, expiresAt: Time)

  datatype ProviderError = MissingCredentials | RefreshRejected | Transport | Decode | Persistence

  /** What the token endpoint answers. */
  datatype Grant =
    | Granted(access: AccessToken, refresh: RefreshToken, expiresIn: int)
    | Failed(error: ProviderError)

  predicate IsFresh(cached: Option<Cached>, now: Time, margin: Time) {
    cached.Some? && cached.value.expiresAt - now > margin
  }

  /** The three OAuth2 columns of the tenant row. */
  class TenantRow {
    var clientId: Option<string>
    var clientSecret: Option<string>
    var refresh: Option<RefreshToken>

    constructor (clientId: Option<string>, clientSecret: Option<string>, refresh: Option<RefreshToken>)
      ensures this.clientId == clientId && this.clientSecret == clientSecret && this.refresh == refresh
    {
      this.clientId, this.clientSecret, this.refresh := clientId, clientSecret, refresh;
    }

    predicate Complete()
      reads this
    {
      clientId.Some? && clientSecret.Some? && refresh.Some?
    }
  }

  class OAuth2TokenProvider {
    const row: TenantRow
    const margin: Time
    var cached: Option<Cached>

    constructor (row: TenantRow, margin: Time)
      ensures this.row == row && this.margin == margin && cached == None
    {
      this.row, this.margin, cached := row, margin, None;
    }

    method CachedAccess(now: Time) returns (r: Option<AccessToken>)
      ensures r == if IsFresh(cached, now, margin) then Some(cached.value.access) else None
      ensures r.Some? <==> cached.Some? && cached.value.expiresAt - now > margin
    {
      match cached
      case Some(c) =>
        if c.expiresAt - now > margin {
          return Some(c.access);
        }
        return None;
      case None => return None;
    }

    /** A fresh token answers at once; otherwise one grant, whose refresh token is
        stored before its access token is cached. A failure changes neither. */
    method RefreshAndCache(now: Time, answer: Grant, commits: bool, answeredAt: Time)
      returns (r: Result<AccessToken, ProviderError>)
      modifies this`cached, row`refresh
      ensures IsFresh(old(cached), now, margin) ==>
                r == Ok(old(cached).value.access) && cached == old(cached) && row.refresh == old(row.refresh)
      ensures !IsFresh(old(cached), now, margin) ==>
                (r.Ok? <==> old(row.Complete()) && answer.Granted? && commits)
      ensures !IsFresh(old(cached), now, margin) && r.Ok? ==>
                && r.value == answer.access
                && row.refresh == Some(answer.refresh)
                && cached == Some(Cached(answer.access, answeredAt + answer.expiresIn))
      ensures r.Err? ==> cached == old(cached) && row.refresh == old(row.refresh)
      // In the columns' own terms.
      ensures old(cached).Some? && old(cached).value.expiresAt - now > margin ==> r == Ok(old(cached).value.access)
      ensures old(cached).None? || old(cached).value.expiresAt - now <= margin ==>
                && (old(row.clientId).None? || old(row.clientSecret).None? || old(row.refresh).None? ==>
                      r == Err(MissingCredentials))
                && (old(row.clientId).Some? && old(row.clientSecret).Some? && old(row.refresh).Some? ==>
                      && (answer.Failed? ==> r == Err(answer.error))
                      && (answer.Granted? && !commits ==> r == Err(Persistence))
                      && (answer.Granted? && commits ==>
                            r == Ok(answer.access) && row.refresh == Some(answer.refresh)
                            && cached == Some(Cached(answer.access, answeredAt + answer.expiresIn))))
    {
      var again := CachedAccess(now);
      if again.Some? {
        return Ok(again.value);
      }
      var presented := row.refresh;
      if row.clientId.None? || row.clientSecret.None? || presented.None? {
        return Err(MissingCredentials);
      }
      if answer.Failed? {
        return Err(answer.error);
      }
      row.refresh := Some(answer.refresh);
      if !commits {
        row.refresh := presented;
        return Err(Persistence);
      }
      cached := Some(Cached(answer.access, answeredAt + answer.expiresIn));
      r := Ok(answer.access);
    }

    method Get(now: Time, recheckedAt: Time, answer: Grant, commits: bool, answeredAt: Time)
      returns (r: Result<AccessToken, ProviderError>)
      modifies this`cached, row`refresh
      ensures IsFresh(old(cached), now, margin) ==>
                r == Ok(old(cached).value.access) && cached == old(cached) && row.refresh == old(row.refresh)
      ensures !IsFresh(old(cached), now, margin) && IsFresh(old(cached), recheckedAt, margin) ==>
                r == Ok(old(cached).value.access) && cached == old(cached) && row.refresh == old(row.refresh)
      ensures !IsFresh(old(cached), now, margin) && !IsFresh(old(cached), recheckedAt, margin) ==>
                (r.Ok? <==> old(row.Complete()) && answer.Granted? && commits)
                && (r.Ok? ==> r.value == answer.access && row.refresh == Some(answer.refresh)
                              && cached == Some(Cached(answer.access, answeredAt + answer.expiresIn)))
      ensures r.Err? ==> cached == old(cached) && row.refresh == old(row.refresh)
      ensures old(cached).Some? && (old(cached).value.expiresAt - now > margin
                                    || old(cached).value.expiresAt - recheckedAt > margin) ==>
                r == Ok(old(cached).value.access) && cached == old(cached) && row.refresh == old(row.refresh)
      ensures old(cached).None? || (old(cached).value.expiresAt - now <= margin
                                    && old(cached).value.expiresAt - recheckedAt <= margin) ==>
                r == (if old(row.clientId).None? || old(row.clientSecret).None? || old(row.refresh).None?
                      then Err(MissingCredentials)
                      else if answer.Failed? then Err(answer.error)
                      else if commits then Ok(answer.access) else Err(Persistence))
    {
      var hit := CachedAccess(now);
      if hit.Some? {
        return Ok(hit.value);
      }
      r := RefreshAndCache(recheckedAt, answer, commits, answeredAt);
    }

    /** Drops the cached token first: only a new grant can answer. */
    method Invalidate(recheckedAt: Time, answer: Grant, commits: bool, answeredAt: Time)
      returns (r: Result<AccessToken, ProviderError>)
      modifies this`cached, row`refresh
      ensures r.Ok? <==> old(row.Complete()) && answer.Granted? && commits
      ensures r.Ok? ==> r.value == answer.access && row.refresh == Some(answer.refresh)
                        && cached == Some(Cached(answer.access, answeredAt + answer.expiresIn))
      ensures r.Err? ==> cached == None && row.refresh == old(row.refresh)
      ensures r == (if old(row.clientId).None? || old(row.clientSecret).None? || old(row.refresh).None?
                    then Err(MissingCredentials)
                    else if answer.Failed? then Err(answer.error)
                    else if commits then Ok(answer.access) else Err(Persistence))
    {
      cached := None;
      r := RefreshAndCache(recheckedAt, answer, commits, answeredAt);
    }
  }
}
