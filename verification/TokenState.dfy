/** Tokens on disk and the three states a stored record stands for. */
module TokenState {
  import opened Basics

  datatype TokenInfo = TokenInfo(accessToken: string, refreshToken: string, expiresAt: real,
                                 scope: string, tokenType: string, expiresIn: real)

  datatype State =
    | Valid(token: TokenInfo)
    | Revoked(scope: string, tokenType: string)
    | Missing

  function ClassifyToken(stored: Option<TokenInfo>): State {
    match stored
    case None => Missing
    case Some(t) => if |t.accessToken| == 0 then Revoked(t.scope, t.tokenType) else Valid(t)
  }

  function RevokedTombstone(prior: TokenInfo): TokenInfo {
    TokenInfo("", "", 0.0, prior.scope, prior.tokenType, 0.0)
  }

  const MIN_REFRESH_THRESHOLD_SECONDS := 300.0
  const REFRESH_THRESHOLD_RATIO := 0.5

  function DefaultRefreshThreshold(expiresIn: real): real {
    if expiresIn > 0.0 then
      var half := expiresIn * REFRESH_THRESHOLD_RATIO;
      if half > MIN_REFRESH_THRESHOLD_SECONDS then half else MIN_REFRESH_THRESHOLD_SECONDS
    else
      MIN_REFRESH_THRESHOLD_SECONDS
  }

  /** `threshold` is what the refresh-threshold function answers for this token's lifetime. */
  predicate ShouldRefresh(token: TokenInfo, force: bool, now: real, threshold: real) {
    if force then true
    else if token.expiresAt == 0.0 then false
    else token.expiresAt - now < threshold
  }

  /**
   By the default threshold a token that expires at all is due within five minutes of its end, or, if its lifetime
   is known, past half of it, whichever is earlier; a forced refresh is always due.
   */
  lemma DueIff(token: TokenInfo, now: real)
    ensures ShouldRefresh(token, false, now, DefaultRefreshThreshold(token.expiresIn)) <==>
              token.expiresAt != 0.0
              && (token.expiresAt - now < 300.0
                    || (token.expiresIn > 0.0 && token.expiresAt - now < token.expiresIn / 2.0))
    ensures ShouldRefresh(token, true, now, DefaultRefreshThreshold(token.expiresIn))
  {
  }

  /**
   When a token issued at `issuedAt` falls due by the default threshold: past half its lifetime, or from
   five minutes before its end if that comes earlier; so a lifetime of less than five minutes is due at once.
   */
  lemma DueFrom(token: TokenInfo, issuedAt: real, now: real)
    requires token.expiresIn > 0.0 && token.expiresAt == issuedAt + token.expiresIn && token.expiresAt != 0.0
    ensures ShouldRefresh(token, false, now, DefaultRefreshThreshold(token.expiresIn))
            <==> now - issuedAt > token.expiresIn * 0.5 || now - issuedAt > token.expiresIn - 300.0
  {
  }

  /** A tombstone reads back as revoked, with the prior scope and type; a record is valid iff it has an access token. */
  lemma TombstoneReadsAsRevoked(stored: Option<TokenInfo>, prior: TokenInfo)
    ensures ClassifyToken(Some(RevokedTombstone(prior))) == Revoked(prior.scope, prior.tokenType)
    ensures var written := RevokedTombstone(prior);
            written.accessToken == "" && written.refreshToken == "" && written.expiresAt == 0.0
                && written.expiresIn == 0.0
    ensures stored.Some? && |stored.value.accessToken| > 0 <==> ClassifyToken(stored).Valid?
  {
  }
}
