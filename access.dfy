/**
 * `allowAccessTo(req, secrets, accessList?)`: header extraction, ordered
 * multi-secret verification and policy matching, run in sequence; the first
 * step that fails decides the error.
 */
module Access {
  import opened Wrappers
  import opened ClaimTree
  import opened BearerHeader
  import opened SecretFallback
  import opened Policy

  /** The decoded claims on success, or one of the two error kinds with its message. */
  datatype Outcome =
    | Granted(claims: Claims)
    | AuthenticationError(message: string)
    | AuthorizationError(message: string)

  const AuthorizationFailedMessage: string := "Authorization failed."
  const PermissionDeniedMessage: string := "Permission denied."

  /** Some entry of the access list, when there is one, matches the claims. */
  predicate Permits(accessList: Option<seq<Claims>>, claims: Claims)
  {
    accessList.None? || exists e :: e in accessList.value && EntryMatches(e, claims)
  }

  /**
   * The authorization check. Of the request only its `authorization` header
   * is read; `verify` is the signature check of one token under one secret.
   */
  function AllowAccessTo(authorization: Option<string>, secrets: seq<string>,
                         accessList: Option<seq<Claims>>, verify: Verifier): (r: Outcome)
    // header step
    ensures authorization.None? ==> r == AuthenticationError(MissingHeaderMessage)
    ensures authorization.Some? && !(BearerPrefix <= authorization.value) ==>
              r == AuthenticationError(WrongSchemeMessage)
    // verification step
    ensures forall token {:trigger Bearer(token)} :: authorization == Some(Bearer(token)) ==>
              (r == AuthorizationError(AuthorizationFailedMessage) <==>
               forall i :: 0 <= i < |secrets| ==> verify(token, secrets[i]).None?)
    // policy step: the first verifying secret's claims, granted or denied
    ensures forall token, i :: authorization == Some(Bearer(token)) && IsFirstVerifying(token, secrets, verify, i) ==>
              r == if Permits(accessList, verify(token, secrets[i]).value)
                   then Granted(verify(token, secrets[i]).value)
                   else AuthorizationError(PermissionDeniedMessage)
    // what a grant means
    ensures r.Granted? ==>
              && Permits(accessList, r.claims)
              && exists token, i :: authorization == Some(Bearer(token)) && IsFirstVerifying(token, secrets, verify, i)
                                    && verify(token, secrets[i]) == Some(r.claims)
  {
    match ExtractToken(authorization)
    case Failure(message) => AuthenticationError(message)
    case Success(token) =>
      match FirstVerified(token, secrets, verify)
      case None => AuthorizationError(AuthorizationFailedMessage)
      case Some(claims) =>
        if accessList.None? || AnyEntryMatches(accessList.value, claims) then Granted(claims)
        else AuthorizationError(PermissionDeniedMessage)
  }

  /**
   * Appending secrets to the list (typically rotated-out ones, tried after the
   * current one) changes nothing for a request whose token the list already
   * verifies, nor for one rejected at the header step.
   */
  lemma AppendedSecretsKeepOutcome(authorization: Option<string>, secrets: seq<string>, more: seq<string>,
                                   accessList: Option<seq<Claims>>, verify: Verifier)
    requires AllowAccessTo(authorization, secrets, accessList, verify) != AuthorizationError(AuthorizationFailedMessage)
    ensures AllowAccessTo(authorization, secrets + more, accessList, verify) == AllowAccessTo(authorization, secrets, accessList, verify)
  {
    if ExtractToken(authorization).Success? {
      var token := ExtractToken(authorization).value;
      AppendedSecretsKeepFirstVerified(token, secrets, more, verify);
    }
  }

  /**
   * A request granted for some claims stays granted when the token would
   * instead decode to claims with more keys, at any depth.
   */
  lemma ExtraClaimsKeepGrant(authorization: Option<string>, secrets: seq<string>, accessList: Option<seq<Claims>>,
                             verify: Verifier, richer: Verifier)
    requires AllowAccessTo(authorization, secrets, accessList, verify).Granted?
    requires forall token, secret :: verify(token, secret).Some? <==> richer(token, secret).Some?
    requires forall token, secret :: verify(token, secret).Some? ==>
               EntryMatches(verify(token, secret).value, richer(token, secret).value)
    ensures AllowAccessTo(authorization, secrets, accessList, richer).Granted?
  {
    var token := ExtractToken(authorization).value;
    var claims := FirstVerified(token, secrets, verify).value;
    var i :| IsFirstVerifying(token, secrets, verify, i) && verify(token, secrets[i]) == Some(claims);
    assert IsFirstVerifying(token, secrets, richer, i);
    FirstSecretWins(token, secrets, richer, i);
    if accessList.Some? {
      var e :| e in accessList.value && EntryMatches(e, claims);
      ExtendedClaimsKeepMatch(e, claims, richer(token, secrets[i]).value);
    }
  }
}
