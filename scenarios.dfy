/**
 * The documented cases of `allowAccessTo`, each replayed on the model with a
 * token that exactly one secret verifies.
 */
module Scenarios {
  import opened Wrappers
  import opened ClaimTree
  import opened BearerHeader
  import opened SecretFallback
  import opened Policy
  import opened Access

  const Secrets: seq<string> := ["testsecret1", "testsecret2"]

  /** A signed token; its contents are opaque to the check. */
  const Token: string := "eyJhbGciOiJIUzI1NiJ9.payload.signature"

  /**
   * The verifier for `Token` after it was signed over `payload` with `key`:
   * only that secret verifies it, and it decodes to the payload.
   */
  function SignedWith(payload: Claims, key: string): (verify: Verifier)
    ensures verify(Token, key) == Some(payload)
    ensures forall token, secret :: verify(token, secret).Some? ==> token == Token && secret == key
  {
    (token: string, secret: string) => if token == Token && secret == key then Some(payload) else None
  }

  const TypePolicy: seq<Claims> := [map["type" := Str("backend")], map["type" := Str("user"), "accountId" := Int(4)]]

  const UserIdPolicy: seq<Claims> :=
    [map["type" := Str("backend")], map["type" := Str("user"), "user" := Obj(map["id" := Int(2)])]]

  const FirstNamePolicy: seq<Claims> :=
    [map["type" := Str("backend")],
     map["type" := Str("user"), "user" := Obj(map["name" := Obj(map["first" := Str("test")])])]]

  lemma HeaderMissing()
    ensures AllowAccessTo(None, Secrets, None, SignedWith(map["type" := Str("valid")], "testsecret1"))
         == AuthenticationError("Authorization header is missing.")
  {
  }

  lemma HeaderNotBearer()
    ensures AllowAccessTo(Some(Token), Secrets, None, SignedWith(map["type" := Str("valid")], "testsecret1"))
         == AuthenticationError("Authorization header should use the 'Bearer' schema.")
  {
    assert Token[0] != BearerPrefix[0];
  }

  lemma SignedWithUnknownSecret()
    ensures AllowAccessTo(Some(Bearer(Token)), Secrets, None, SignedWith(map["type" := Str("valid")], "invalidsecret"))
         == AuthorizationError("Authorization failed.")
  {
  }

  lemma SignedWithEitherSecret(index: nat)
    requires index < |Secrets|
    ensures var payload := map["type" := Str("valid"), "something" := Str("else")];
            var r := AllowAccessTo(Some(Bearer(Token)), Secrets, Some([payload]), SignedWith(payload, Secrets[index]));
            r == Granted(payload) && r.claims["type"] == Str("valid") && r.claims["something"] == Str("else")
  {
  }

  lemma TypeNotAllowed()
    ensures AllowAccessTo(Some(Bearer(Token)), Secrets, Some(TypePolicy),
                          SignedWith(map["type" := Str("notallowedtype")], "testsecret1"))
         == AuthorizationError("Permission denied.")
  {
    var claims := map["type" := Str("notallowedtype")];
    assert IsFirstVerifying(Token, Secrets, SignedWith(claims, "testsecret1"), 0);
    assert TypePolicy[0]["type"] != claims["type"] by { assert |"backend"| != |"notallowedtype"|; }
    assert !EntryMatches(TypePolicy[0], claims);
    assert !EntryMatches(TypePolicy[1], claims);
  }

  lemma AccountIdNotAllowed()
    ensures AllowAccessTo(Some(Bearer(Token)), Secrets, Some(TypePolicy),
                          SignedWith(map["type" := Str("user"), "accountId" := Str("somethingelse")], "testsecret1"))
         == AuthorizationError("Permission denied.")
  {
    var claims := map["type" := Str("user"), "accountId" := Str("somethingelse")];
    assert IsFirstVerifying(Token, Secrets, SignedWith(claims, "testsecret1"), 0);
    assert TypePolicy[0]["type"] != claims["type"] by { assert |"backend"| != |"user"|; }
    assert !EntryMatches(TypePolicy[0], claims);
    assert "accountId" in TypePolicy[1] && TypePolicy[1]["accountId"] != claims["accountId"];
    assert !EntryMatches(TypePolicy[1], claims);
  }

  lemma TypeAllowed()
    ensures AllowAccessTo(Some(Bearer(Token)), Secrets, Some(TypePolicy),
                          SignedWith(map["type" := Str("backend")], "testsecret1")).Granted?
  {
  }

  lemma TypeWithAccountIdAllowed()
    ensures var claims := map["type" := Str("user"), "accountId" := Int(4)];
            (AllowAccessTo(Some(Bearer(Token)), Secrets, Some(TypePolicy), SignedWith(claims, "testsecret1"))
             == Granted(claims))
  {
  }

  lemma NestedUserIdAllowed()
    ensures AllowAccessTo(Some(Bearer(Token)), Secrets, Some(UserIdPolicy),
                          SignedWith(map["type" := Str("user"), "user" := Obj(map["id" := Int(2)])], "testsecret1")).Granted?
  {
  }

  lemma NestedFirstNameAllowed()
    ensures AllowAccessTo(Some(Bearer(Token)), Secrets, Some(FirstNamePolicy),
                          SignedWith(map["type" := Str("user"), "user" := Obj(map["name" := Obj(map["first" := Str("test")])])],
                                     "testsecret1")).Granted?
  {
  }

  lemma NestedFirstNameMissing()
    ensures AllowAccessTo(Some(Bearer(Token)), Secrets, Some(FirstNamePolicy),
                          SignedWith(map["type" := Str("user"), "user" := Obj(map[])], "testsecret1"))
         == AuthorizationError("Permission denied.")
  {
    var claims := map["type" := Str("user"), "user" := Obj(map[])];
    assert IsFirstVerifying(Token, Secrets, SignedWith(claims, "testsecret1"), 0);
    assert FirstNamePolicy[0]["type"] != claims["type"] by { assert |"backend"| != |"user"|; }
    assert !EntryMatches(FirstNamePolicy[0], claims);
    assert "name" in FirstNamePolicy[1]["user"].fields && "name" !in claims["user"].fields;
    assert !Matches(FirstNamePolicy[1]["user"], claims["user"]);
    assert !EntryMatches(FirstNamePolicy[1], claims);
  }

  lemma ReturnsTokenContent()
    ensures var r := AllowAccessTo(Some(Bearer(Token)), Secrets, Some(TypePolicy),
                                   SignedWith(map["type" := Str("user"), "accountId" := Int(4)], "testsecret1"));
            r.Granted? && r.claims["type"] == Str("user") && r.claims["accountId"] == Int(4)
  {
  }

  /**
   * The three denials stand when the payload also carries the issued-at
   * time `iat` that the signer adds: no entry mentions that key.
   */
  lemma DenialsHoldWithIssuedAt(iat: int)
    ensures AllowAccessTo(Some(Bearer(Token)), Secrets, Some(TypePolicy),
                          SignedWith(map["type" := Str("notallowedtype"), "iat" := Int(iat)], "testsecret1"))
         == AuthorizationError("Permission denied.")
    ensures AllowAccessTo(Some(Bearer(Token)), Secrets, Some(TypePolicy),
                          SignedWith(map["type" := Str("user"), "accountId" := Str("somethingelse"), "iat" := Int(iat)],
                                     "testsecret1"))
         == AuthorizationError("Permission denied.")
    ensures AllowAccessTo(Some(Bearer(Token)), Secrets, Some(FirstNamePolicy),
                          SignedWith(map["type" := Str("user"), "user" := Obj(map[]), "iat" := Int(iat)], "testsecret1"))
         == AuthorizationError("Permission denied.")
  {
    assert "iat" != "type" && "iat" != "accountId" && "iat" != "user" by {
      assert "iat"[0] != "type"[0] && "iat"[0] != "accountId"[0] && "iat"[0] != "user"[0];
    }
    TypeNotAllowed();
    AccountIdNotAllowed();
    NestedFirstNameMissing();
    DeniedWithIssuedAt(TypePolicy, map["type" := Str("notallowedtype")], iat);
    DeniedWithIssuedAt(TypePolicy, map["type" := Str("user"), "accountId" := Str("somethingelse")], iat);
    DeniedWithIssuedAt(FirstNamePolicy, map["type" := Str("user"), "user" := Obj(map[])], iat);
  }

  /** A payload denied under `accessList` stays denied once `iat` is added to it. */
  lemma DeniedWithIssuedAt(accessList: seq<Claims>, claims: Claims, iat: int)
    requires "iat" !in claims
    requires forall e :: e in accessList ==> "iat" !in e
    requires AllowAccessTo(Some(Bearer(Token)), Secrets, Some(accessList), SignedWith(claims, "testsecret1"))
          == AuthorizationError("Permission denied.")
    ensures AllowAccessTo(Some(Bearer(Token)), Secrets, Some(accessList), SignedWith(claims["iat" := Int(iat)], "testsecret1"))
         == AuthorizationError("Permission denied.")
  {
    assert IsFirstVerifying(Token, Secrets, SignedWith(claims, "testsecret1"), 0);
    assert IsFirstVerifying(Token, Secrets, SignedWith(claims["iat" := Int(iat)], "testsecret1"), 0);
    UnmentionedClaimKeepsDecision(accessList, claims, "iat", Int(iat));
  }
}
