/**
 * Multi-secret verification: the token is tried against each configured
 * secret in order and the first secret that verifies it decides the claims.
 */
module SecretFallback {
  import opened Wrappers
  import opened ClaimTree

  /**
   * The token-verification primitive, taken as given: it returns the decoded
   * claims when `token` carries a valid signature under `secret`.
   */
  type Verifier = (string, string) -> Option<Claims>

  /** `secrets[i]` verifies `token` and no earlier secret does. */
  predicate IsFirstVerifying(token: string, secrets: seq<string>, verify: Verifier, i: int)
  {
    && 0 <= i < |secrets|
    && verify(token, secrets[i]).Some?
    && forall j :: 0 <= j < i ==> verify(token, secrets[j]).None?
  }

  /** The claims decoded by the first secret, in list order, that verifies `token`. */
  function FirstVerified(token: string, secrets: seq<string>, verify: Verifier): (r: Option<Claims>)
    ensures r.None? <==> forall i :: 0 <= i < |secrets| ==> verify(token, secrets[i]).None?
    ensures r.Some? ==> exists i :: IsFirstVerifying(token, secrets, verify, i) && r == verify(token, secrets[i])
    decreases |secrets|
  {
    if secrets == [] then None
    else if verify(token, secrets[0]).Some? then
      assert IsFirstVerifying(token, secrets, verify, 0);
      verify(token, secrets[0])
    else
      var rest := FirstVerified(token, secrets[1..], verify);
      assert rest.Some? ==> exists i :: IsFirstVerifying(token, secrets, verify, i) && rest == verify(token, secrets[i]) by {
        if rest.Some? {
          var i :| IsFirstVerifying(token, secrets[1..], verify, i) && rest == verify(token, secrets[1..][i]);
          assert IsFirstVerifying(token, secrets, verify, i + 1);
        }
      }
      rest
  }

  /**
   * First secret wins: whichever secret is the first to verify the token
   * decides the claims, whatever later secrets would decode.
   */
  lemma FirstSecretWins(token: string, secrets: seq<string>, verify: Verifier, i: int)
    requires IsFirstVerifying(token, secrets, verify, i)
    ensures FirstVerified(token, secrets, verify) == verify(token, secrets[i])
  {
  }

  /**
   * Appending further secrets (for instance, rotated-out ones) never changes
   * the outcome for a token that an earlier secret already verifies.
   */
  lemma {:induction false} AppendedSecretsKeepFirstVerified(token: string, secrets: seq<string>, more: seq<string>, verify: Verifier)
    requires FirstVerified(token, secrets, verify).Some?
    ensures FirstVerified(token, secrets + more, verify) == FirstVerified(token, secrets, verify)
    decreases |secrets|
  {
    assert secrets != [];
    if verify(token, secrets[0]).None? {
      assert (secrets + more)[1..] == secrets[1..] + more;
      AppendedSecretsKeepFirstVerified(token, secrets[1..], more, verify);
    }
  }
}
