# bearer-jwt-auth: a Dafny model of `allowAccessTo`

`allowAccessTo(req, secrets, accessList?)` guards a request with a bearer
JSON Web Token. It runs three steps in order, and the first step that fails
decides the error:

1. **Header extraction.** The request's `authorization` header must be
   present and must start with `"Bearer "`. The rest of the header is the
   token.
2. **Ordered multi-secret verification.** The token is tried against each
   configured secret in list order. The first secret that verifies it
   supplies the decoded claims. If none does, the call fails with
   "Authorization failed.".
3. **Policy matching.** When an access list is given, at least one of its
   entries must be a required subset of the claims. Keys compare by strict
   value equality, nested objects compare recursively, and claim keys that an
   entry does not mention are ignored. A decoded JWT always carries the
   signer-added `iat` key, so every grant in the suite already depends on
   that last rule. When no entry matches, the call fails with
   "Permission denied.".

On success the call returns the decoded claims unchanged.

The implementation file `src/index.js` is not part of this model. The
behaviour modelled is the one that `src/index.test.js` asserts.

Modules, one per step plus shared types:

- `Wrappers`: `Option` and `Result`.
- `ClaimTree`: the claim value tree (`Str | Int | Bool | Obj(map)`) and key-path `Lookup`.
- `BearerHeader`: header extraction and the `Bearer` header format.
- `SecretFallback`: the first-secret-wins search over the ordered secrets.
- `Policy`: the recursive subset match, its key-path characterisation, and the access-list decision.
- `Access`: `AllowAccessTo` and its outcome type.
- `Scenarios`: each case of the test suite replayed on the model.

The signature check of the JWT library is the parameter
`verify: (string, string) -> Option<Claims>`. It maps a token and a secret to
the decoded payload, or to `None` when the library would throw for any
reason: a bad signature, a malformed token or an expired token. Because the
model is a function of its inputs, calling it twice with the same inputs
gives the same outcome. The suite calls it twice with the same inputs at
`src/index.test.js:29` and `:31`.

The error classes `AuthenticationError` and `AuthorizationError` become two
variants of `Access.Outcome`, each carrying its message. A policy mismatch is
always `AuthorizationError("Permission denied.")`. The test at
`src/index.test.js:67` builds the expected error as an `AuthenticationError`,
while lines 55 and 127 use `AuthorizationError` for the same outcome. Jest's
`toThrow` with an error object compares only the message, so that test does
not fix the class. A credential that verified is an authorization failure
when the policy rejects it, and the model uses that kind in every case.

## Model

| member | source | states |
|---|---|---|
| `BearerHeader.Bearer` | src/index.test.js:22 | The header `Bearer ${token}` starts with the scheme prefix, and the token can be recovered from it after that prefix. |
| `BearerHeader.ExtractToken` | src/index.test.js:9-18 | A missing header fails with "Authorization header is missing.". A header that does not start with `"Bearer "` fails with the Bearer-schema message. Every header that does start with it yields a token. A token yielded is exactly the rest of the header. |
| `BearerHeader.ExtractBearerRoundTrip` | src/index.test.js:20-24 | A token presented as `Bearer ${token}` is extracted unchanged. |
| `SecretFallback.FirstVerified` | src/index.test.js:20-44 | The search fails exactly when no secret in the list verifies the token. On success, the claims are those decoded by a secret that verifies the token when no earlier secret does. |
| `SecretFallback.FirstSecretWins` | src/index.test.js:26-44 | Whichever secret is the first to verify the token decides the result, at index 0 or at any later index. |
| `SecretFallback.AppendedSecretsKeepFirstVerified` | src/index.test.js:6 | Appending secrets to a list that already verifies the token does not change the decoded claims. |
| `Policy.Matches` | src/index.test.js:94-128 | The recursive subset match. An object pattern needs an object holding every key of the pattern, each matching recursively; a leaf pattern needs the equal leaf; keys the pattern does not name are ignored. Its contract states that a match never pairs an object with a leaf, that every key the pattern names is present, and that a leaf is matched only by itself. `Policy.MatchesIffPathwiseSubset` gives the independent key-path reading. |
| `Policy.EntryMatches` | src/index.test.js:46-128 | One access-policy entry matched as an object against the top level of the claims. Every key of a matching entry is a claim key, and an entry with no keys matches any claims; the suite has no keyless entry, this is the subset rule's degenerate case. |
| `Policy.AnyEntryMatches` | src/index.test.js:46-92 | The access list grants exactly when some entry of it matches the claims. |
| `Policy.MatchesReflexive` | src/index.test.js:106-116 | Every claims tree, however deeply nested, matches itself as a policy entry. |
| `Policy.MatchesTransitive` | src/index.test.js:94-116 | A sub-tree of a sub-tree of the claims is a sub-tree of the claims. |
| `Policy.MatchesAgreesAlongPath` | src/index.test.js:94-128 | If an entry matches, then at every key path of the entry the claims hold the same leaf, or an object where the entry holds one. |
| `Policy.PathwiseSubsetMatches` | src/index.test.js:94-128 | If the claims agree with the entry at every key path of the entry, the entry matches. |
| `Policy.MatchesIffPathwiseSubset` | src/index.test.js:94-128 | An entry matches exactly when every key path it requires, at any depth, is present in the claims with an equal leaf or an object. A missing nested key such as `user.name` in claims `user: {}` defeats the entry. |
| `Policy.ExtendedClaimsKeepMatch` | src/index.test.js:26-34 | Claims extended by more keys at any depth keep every match they had. |
| `Policy.ExtraClaimKeepsMatch` | src/index.test.js:26-34 | Adding one claim key that was absent, such as the signer's `iat`, never breaks a match. |
| `Policy.UnmentionedClaimKeepsDecision` | src/index.test.js:46-68 | A claim key that no entry mentions, such as the signer's `iat`, changes no decision: a grant stays a grant and a denial stays a denial. |
| `Policy.ExtendedClaimsKeepAccess` | src/index.test.js:26-34 | An access list that grants some claims grants every extension of them. |
| `Policy.WildcardEntryGrants` | src/index.test.js:70-80 | An access list that holds a keyless entry grants any claims. The suite has no keyless entry; this follows from the subset rule and the "at least one entry" rule. |
| `Policy.EmptyAccessListDenies` | src/index.test.js:46-56 | An empty access list grants nothing. The suite has no empty access list; this follows from the "at least one entry" rule. |
| `Policy.JoinedAccessListsGrantEither` | src/index.test.js:70-92 | Joining two access lists grants exactly what either list grants, so no entry, earlier or later, vetoes another. |
| `Policy.ReorderedAccessListSameDecision` | src/index.test.js:70-92 | Reordering the entries of an access list does not change the decision. |
| `Access.AllowAccessTo` | src/index.test.js:4-143 | A missing header or a non-Bearer header gives an `AuthenticationError` with the matching message. For a Bearer header, the result is `AuthorizationError("Authorization failed.")` exactly when no secret verifies the token. Otherwise the first verifying secret's claims are granted, unchanged, exactly when there is no access list or some entry matches them; if not, the result is `AuthorizationError("Permission denied.")`. |
| `Access.AppendedSecretsKeepOutcome` | src/index.test.js:36-44 | Appending secrets changes nothing for a request whose token the list already verifies, or for one rejected at the header step. |
| `Access.ExtraClaimsKeepGrant` | src/index.test.js:26-34 | A granted request stays granted when the token's claims gain keys. |
| `Scenarios.SignedWith` | src/index.test.js:20-27 | Test scaffolding for the suite's `jwt.sign` followed by verification: the signed token verifies under the signing secret and decodes to the payload, and under no other secret. |
| `Scenarios.HeaderMissing` | src/index.test.js:9-12 | A request with no header fails with "Authorization header is missing.". |
| `Scenarios.HeaderNotBearer` | src/index.test.js:14-18 | A bare token as the header fails with the Bearer-schema message. |
| `Scenarios.SignedWithUnknownSecret` | src/index.test.js:20-24 | A token signed with a secret outside the list fails with "Authorization failed.". |
| `Scenarios.SignedWithEitherSecret` | src/index.test.js:26-44 | A token signed with the first or the second secret is granted, and `type` and `something` come back unchanged. |
| `Scenarios.TypeNotAllowed` | src/index.test.js:46-56 | Claims `{type: 'notallowedtype'}` match neither entry and are denied. |
| `Scenarios.AccountIdNotAllowed` | src/index.test.js:58-68 | Claims with `accountId: 'somethingelse'` fail against `accountId: 4` and are denied with an `AuthorizationError`. |
| `Scenarios.TypeAllowed` | src/index.test.js:70-80 | `{type: 'backend'}` is granted by the first entry. |
| `Scenarios.TypeWithAccountIdAllowed` | src/index.test.js:82-92 | `{type: 'user', accountId: 4}` is granted by the second entry, past a first entry that does not match. |
| `Scenarios.NestedUserIdAllowed` | src/index.test.js:94-104 | A nested `user.id` entry matches claims with the same nested value. |
| `Scenarios.NestedFirstNameAllowed` | src/index.test.js:106-116 | A `user.name.first` entry, two levels deep, matches. |
| `Scenarios.NestedFirstNameMissing` | src/index.test.js:118-128 | Claims with `user: {}` lack `user.name.first` and are denied. |
| `Scenarios.ReturnsTokenContent` | src/index.test.js:130-143 | The grant returns the claims, with `type == 'user'` and `accountId == 4`. |
| `Scenarios.DenialsHoldWithIssuedAt` | src/index.test.js:46-68 | The denials of the `type`, `accountId` and missing `user.name.first` cases still hold when the payload also carries an `iat` key. |
| `Scenarios.DeniedWithIssuedAt` | src/index.test.js:118-128 | A payload denied under an access list that never mentions `iat` stays denied once `iat` is added to it. |

## Left out

- JWT signing and verification (HMAC, base64url, JSON parsing, expiry checks against the clock): all of these sit behind the `verify` parameter. The scenarios use a verifier under which the token verifies only with the secret it was signed with. Their claims omit the `iat` key that the library adds. `Policy.ExtraClaimKeepsMatch` shows that the key keeps every grant. `Policy.UnmentionedClaimKeepsDecision` and `Scenarios.DenialsHoldWithIssuedAt` show that it keeps the denials too.
- The request object beyond its `authorization` header. The header is `Option<string>`. Case-insensitive header names are not modelled; that normalisation belongs to the HTTP layer.
- An empty `authorization` header is present in the model. It is rejected with the Bearer-schema message, not the missing-header message. `src/index.js` is not part of this model, so whether it treats `""` as missing cannot be told from the suite.
- The token is the header after the exact prefix `"Bearer "`. A split on spaces would treat a token with spaces differently; the suite does not constrain that.
- The classes of `standard-api-errors` and their HTTP status codes: they are the two message-carrying variants of `Access.Outcome`.
- Jest's `toThrow` matching, including the `AuthenticationError` expected at `src/index.test.js:67` (see above).
- Floating-point numbers, `null` and arrays in claims and policies: values are strings, integers, booleans and nested objects. Integers are enough for the suite's `4` and `2`.
