# Startup directory backend — a Dafny model

This project models the core of a startup-directory web backend. The backend covers:

- **Users.** People log in with a username and password stored in an Airtable base, and receive an HS256-signed JSON Web Token. A token is the compact serialisation of section 7.1 of RFC 7515, with the claims of section 4.1 of RFC 7519, in base64url segments as in section 5 of RFC 4648.
- **Requests.** A middleware resolves the bearer token into an identity. A second middleware admits a request when any of the listed roles is held.
- **Startups.** Founders submit startups, which stay `pending` until an administrator approves them.
- **The public directory.**
  - It lists approved startups only, with filters, search, a trending order, and sector and stage listings.
  - It counts views and contact requests.
  - It keeps a per-user upvote toggle.
  - It hands out time-limited pitch-deck links.
- **Support code.** Configuration comes from the environment: lookup, defaults, namespacing, number parsing and start-up validation. Errors are mapped to HTTP responses, and a small memoiser is shared.

The model is a set of pure functions over immutable values, one module per source component:

| module | component |
|---|---|
| `Wrappers`, `Text`, `Base64` | Option/Result, the JavaScript string built-ins used (trim, toLowerCase, split, join, parseInt), base64 and base64url |
| `AuthTypes`, `Jwt`, `AuthService`, `PasswordAuth` | token issue and check, login, credential check |
| `AuthMiddleware`, `AuthType` | the session resolver and the role gate |
| `Errors`, `Shared`, `Config` | error responses, `lazy`, configuration |
| `Airtable` | request paths and the per-operation status rule of the store client |
| `StartupTypes`, `Repository` | the startup records, field mapping, filter formulas, reads and writes |
| `StartupsService`, `Trending`, `Analytics`, `Engagement`, `PitchDeck`, `Admin` | the startup services |

Everything the code takes from outside is a parameter:

- **The clock.** `now` is seconds for tokens, an ISO text for timestamps and milliseconds for pitch decks.
- **HMAC-SHA256, UTF-8, JSON.stringify/parse and bcrypt's compare.** These are function values in `Jwt.Platform` and `PasswordAuth.UserStore`. The laws the proofs need are three ghost predicates, and each lemma assumes only the ones it uses. `Jwt.DigestLaw` gives a 32-byte digest. `Jwt.RoundTripLaws` gives the UTF-8 and JSON round trips. `Jwt.ShapeLaws` says JSON texts of objects start with `{` and no JSON text starts with `e`.
- **The startups table.** It is a map from record id to record (`Repository.Table`), and single-record reads and writes act on it directly. The listing endpoint, whose filter formulas are Airtable's language, is an oracle `Repository.Lister` from the table and the list options to the page it returns.
- **The environment.** It is `Config.EnvState`: the process environment and the `getEnv` cache.

Behaviours of the code the model keeps, which a reader might not expect:

- The role gate has no administrator bypass: each listed role is checked against its own flag (src/middleware/auth-type.middleware.ts:18-30).
- The bearer token is the header minus its first seven characters, not trimmed (src/middleware/auth.middleware.ts:18-19).
- A token with more than three `.`-separated segments is accepted on its first three (src/modules/auth/util.ts:76).
- `validateEnvVars` treats an empty variable as defined, because only `null`/`undefined` count as missing there (src/modules/configuration/index.ts:20-23), while `get` treats it as missing (src/modules/configuration/config.service.ts:29-31).
- The Airtable store, by its documented behaviour, omits empty cells from the records it returns; this is a property of the store, not of the code, and `Repository.Stored` models it. Two consequences follow from what the code writes (src/modules/startups/startup.repository.ts:234-246):
  - A submission without tags is written with an empty Tags text (`join` of an empty list), so its Tags cell reads back absent.
  - A submission with `isStudentBuild` false is written with an unticked Student Build box, which reads back absent, so the public view's `isStudentBuild` is undefined rather than false.
- A submission without a website, or with empty profile links, writes no such cell, and the public view's `website` and links are then undefined.

## Model

| member | source | states |
|---|---|---|
| AuthTypes.IdentityOf | src/modules/auth/auth.service.ts:71-79 | a verified identity is authenticated, its user id is the subject claim, and each role flag is the matching role claim |
| Jwt.IssueClaims | src/modules/auth/util.ts:27-46 | issued claims carry the user id as subject and copy the four role flags one for one |
| Jwt.IssuedClaimsWindow | src/modules/auth/util.ts:27-46 | claims issued at `now` pass the payload check exactly at the times from `now` to `now` + 7·86400 seconds, both ends included |
| Jwt.GenerateToken | src/modules/auth/util.ts:48-59 | the token splits on '.' into exactly the encoded header, the encoded payload and the signature, since base64url has no '.' |
| Jwt.TokenSplits | src/modules/auth/util.ts:58 | three '.'-free segments joined by '.' split back into those three |
| Jwt.HeaderIsConstant | src/modules/auth/util.ts:49-50 | every token starts with the same header segment, the base64url of {"alg":"HS256","typ":"JWT"} |
| Jwt.ValidatePayload | src/modules/auth/util.ts:61-73 | a payload passes iff iat ≤ now ≤ exp, with both ends included, and its issuer and audience equal the configured ones; passing implies iat ≤ exp |
| Jwt.ValidatePayloadCharacterised | src/modules/auth/util.ts:61-73 | the payload check holds iff iat ≤ now ≤ exp and issuer and audience equal the configured ones |
| Jwt.SigningKey | src/modules/auth/util.ts:22-25 | the per-token key is padded standard base64 (only A–Z, a–z, 0–9, '+', '/', '='), four characters per started 3-byte group of the digest, so 44 characters for a SHA-256 digest |
| Jwt.SigningKeyDependsOnSubjectAndIssuedAt | src/modules/auth/util.ts:22-25 | the per-token key depends only on the text sub ++ iat: claims differing only in roles, exp, iss or aud get the same key |
| Jwt.SigningKeyConcatenationCollision | src/modules/auth/util.ts:24 | the subject and issue time are concatenated without a separator, so ("user1", 23) and ("user12", 3) share a key |
| Jwt.ValidateSignature | src/modules/auth/util.ts:75-83 | a signature is accepted only if the third segment equals the digest, in the check's encoding, of "header.payload" under the key re-derived from the token's own claims |
| Jwt.ValidateSignatureOfParts | src/modules/auth/util.ts:75-83 | for a token whose claims parse, the verdict is exactly "a third segment exists and equals the recomputed digest" |
| Jwt.PayloadSegmentStartsWithE | src/modules/auth/util.ts:51 | the payload segment of every token starts with 'e', the base64url of '{', so it is never JSON |
| Jwt.DecodedPayloadText | src/modules/auth/util.ts:51-77 | finding, corrected: the check that base64url-decodes the payload segment before parsing gets back the JSON text of the claims, which parses to the claims |
| Jwt.EncodedPayloadParseThrows | src/modules/auth/util.ts:77 | finding, as written: JSON.parse of the still-encoded segment throws for every issued token, whatever the digest encoding |
| Jwt.StandardDigestRejectsIssued | src/modules/auth/util.ts:81 | finding, as written: even with the payload decoded, the standard-base64 digest never equals the base64url signature of an issued token |
| Jwt.AsWrittenRejectsIssued | src/modules/auth/util.ts:75-83 | the signature check as written never accepts a token the code issued |
| Jwt.CorrectedAcceptsIssued | src/modules/auth/util.ts:75-83 | the corrected check (base64url digest, decoded payload) accepts every issued token |
| Jwt.ExtraSegmentsIgnored | src/modules/auth/util.ts:76 | only the first three segments are read: an issued token with ".anything" appended still passes the corrected check |
| AuthService.Login | src/modules/auth/auth.service.ts:34-57 | login succeeds iff authentication does. It returns the token of the claims issued now, an expiry of now + 7 days, and the user id and four role flags of the authentication result. Failures pass through unchanged |
| AuthService.TokenClaims | src/modules/auth/auth.service.ts:67-69 | claims are read only from a token with a second segment that is valid base64url |
| AuthService.VerifyTokenWith | src/modules/auth/auth.service.ts:65-88 | verification succeeds iff the claims parse, the payload check holds and the signature check accepts. Success yields the identity of the claims; every failure is the same "Invalid token" error |
| AuthService.VerifyToken | src/modules/auth/auth.service.ts:65-88 | the corrected verification yields only authenticated identities, and "Invalid token" otherwise |
| AuthService.VerifyTokenAsWritten | src/modules/auth/auth.service.ts:65-88 | the as-written verification has the same shape of outcome as the corrected one |
| AuthService.TokenClaimsOfGenerated | src/modules/auth/auth.service.ts:67-69 | reading the claims back from a generated token gives the claims signed into it |
| AuthService.IdentityOfIssuedClaims | src/modules/auth/auth.service.ts:71-79 | issuing claims for an identity and reading the identity back is the identity |
| AuthService.VerifyIssuedToken | src/modules/auth/auth.service.ts:65-88 | finding, corrected: a token issued at time T verifies at `now` iff T ≤ now ≤ T + 7 days, and then gives back the identity it was issued for |
| AuthService.AsWrittenRejectsEveryIssuedToken | src/modules/auth/auth.service.ts:70 | finding, as written: every issued token is refused with "Invalid token" |
| AuthService.LoginTokenVerifies | src/modules/auth/auth.service.ts:42-54 | the login token's exp equals tokenExpiresAt, and until then it verifies to exactly the user id and flags login returned |
| AuthService.LoginTokenRejectedAsWritten | src/modules/auth/auth.service.ts:42-43 | with the check as written, a freshly issued login token is refused at any time |
| PasswordAuth.UserQuery | src/modules/auth/password-auth.service.ts:36-43 | the user lookup asks for at most one record, no sort and no offset, with the formula {Username} = '<username>' holding the username verbatim |
| PasswordAuth.UserQueryInjective | src/modules/auth/password-auth.service.ts:41 | different usernames give different queries |
| PasswordAuth.UsernameNotEscaped | src/modules/auth/password-auth.service.ts:41 | the username is pasted into the formula unescaped: a quote in it changes the formula |
| PasswordAuth.UserIdentity | src/modules/auth/password-auth.service.ts:58-65 | the identity is the record id, the truthiness of the Admin, Investor and Founder columns, and always a curious person |
| PasswordAuth.Authenticate | src/modules/auth/password-auth.service.ts:33-66 | success iff the lookup succeeds, returns a first record and the password matches it. A transport error passes through; an unknown user and a wrong password both give "Invalid username or password" |
| PasswordAuth.UnknownUserAndWrongPasswordAlike | src/modules/auth/password-auth.service.ts:45-55 | an unknown user and a wrong password give the identical error |
| PasswordAuth.OnlyFirstRowConsulted | src/modules/auth/password-auth.service.ts:50 | records after the first and the page offset do not affect the outcome |
| PasswordAuth.SuccessIsAuthenticatedCurious | src/modules/auth/password-auth.service.ts:58-65 | a successful result is authenticated, curious, and carries the id of the first returned record |
| AuthMiddleware.BearerToken | src/middleware/auth.middleware.ts:18-19 | a token is taken iff the header starts with exactly "Bearer "; it is the header minus those 7 characters |
| AuthMiddleware.Resolve | src/middleware/auth.middleware.ts:7-49 | next is called exactly once. The request is authenticated iff a non-empty token verifies, and then both req.auth and the injected auth hold the identity. A failing non-empty token passes its error to next and leaves the request unauthenticated |
| AuthMiddleware.BearerTokenNotTrimmed | src/middleware/auth.middleware.ts:19 | whatever follows "Bearer ", spaces included, is the token |
| AuthMiddleware.LowercaseSchemeIgnored | src/middleware/auth.middleware.ts:18 | "bearer " (lower case) and a missing header yield no token |
| AuthMiddleware.NoTokenProceedsUnauthenticated | src/middleware/auth.middleware.ts:42-48 | without a token, or with an empty one, the request proceeds unauthenticated with no error |
| AuthMiddleware.PriorIgnored | src/middleware/auth.middleware.ts:16 | the outcome does not depend on what req.auth held before, since it is reset first |
| AuthMiddleware.IssuedTokenResolves | src/middleware/auth.middleware.ts:22-40 | with the corrected check, a bearer header carrying an issued token authenticates inside its validity window and fails with "Invalid token" outside it |
| AuthType.RolesToCheck | src/middleware/auth-type.middleware.ts:14 | a single role is checked as a one-element list |
| AuthType.Authorize | src/middleware/auth-type.middleware.ts:16-36 | the loop authorises iff some listed role is granted by its flag |
| AuthType.AnyGrantsExists | src/middleware/auth-type.middleware.ts:16-36 | the recursive any-of check agrees with "some listed role is granted" |
| AuthType.RequireAuthType | src/middleware/auth-type.middleware.ts:6-54 | an unauthenticated request gets the 401 error. An authenticated one proceeds iff some listed role's flag is set, and otherwise gets a 403 whose message joins the roles with " or " |
| AuthType.OrderAndDuplicatesIrrelevant | src/middleware/auth-type.middleware.ts:17-36 | role lists with the same members give the same decision, whatever the order or repetitions |
| AuthType.SingleIsOneElementList | src/middleware/auth-type.middleware.ts:14 | requiring role r and requiring [r] are the same gate |
| AuthType.NoAdminBypass | src/middleware/auth-type.middleware.ts:18-30 | an administrator without the founder flag is refused by the founder gate |
| AuthType.UnknownRolesNeverAuthorize | src/middleware/auth-type.middleware.ts:31-33 | unknown role names never admit, and adding them to a list changes nothing |
| AuthType.UnauthenticatedAlways401 | src/middleware/auth-type.middleware.ts:8-11 | any role list refuses an unauthenticated request with status 401 |
| AuthType.CuriousAdmitsCuriousPerson | src/middleware/auth-type.middleware.ts:28-29 | a curious person passes the curious gate |
| Errors.HandleValidationErrors | src/middleware/errors.ts:41-50 | a validation failure answers status "error", message "Invalid payload" and one entry per failed property, in order, naming that property |
| Errors.FieldMessages | src/middleware/errors.ts:45-48 | one entry per validation error: its property and its constraint messages joined by ", " |
| Errors.HandleHttpError | src/middleware/errors.ts:28-39 | the response status is the error's code and the body status is "error" |
| Errors.HandleError | src/middleware/errors.ts:15-57 | a non-HTTP error is a 500 with the fixed message. An HTTP error keeps its code and, unless its first error is a validation error, its message. Validation errors become "Invalid payload" with one field entry per error |
| Errors.ValidationDecidedByFirst | src/middleware/errors.ts:53-56 | only the first element decides whether the errors are validation errors |
| Shared.CallLazy | src/modules/shared/util.ts:8-16 | the factory runs unless the stored value is truthy; its value is stored and returned, otherwise the stored value is returned |
| Shared.CallLazyMany | src/modules/shared/util.ts:8-16 | a sequence of calls returns one value per call and runs the factory at most once per call |
| Shared.LazyTruthyIsStable | src/modules/shared/util.ts:11 | once a truthy value is stored, the factory never runs again and every call returns that value |
| Shared.LazyRunsOnce | src/modules/shared/util.ts:8-16 | a first truthy result makes the factory run exactly once over any number of calls |
| Shared.LazyFalsyIsRetried | src/modules/shared/util.ts:11-13 | a falsy result is not memoised: the factory runs again on the next call |
| Airtable.GetPath | src/modules/http/airtable/client.ts:37-43 | the path starts with '/' and, for a non-empty record id, ends with "/" + the id |
| Airtable.GetPathSplits | src/modules/http/airtable/client.ts:37-43 | with '/'-free parts, the path splits on '/' into "", base, table and the record id when one is given |
| Airtable.EmptyRecordIdIgnored | src/modules/http/airtable/client.ts:39 | an empty record id gives the table path |
| Airtable.Receive | src/modules/http/airtable/client.ts:68-75 | a transport error is rethrown; an accepted status yields the body and any other status yields null |
| Airtable.CreateRequest | src/modules/http/airtable/client.ts:57-66 | creation POSTs the fields to the table path |
| Airtable.GetRequest | src/modules/http/airtable/client.ts:90-98 | a read GETs the record path |
| Airtable.UpdateRequest | src/modules/http/airtable/client.ts:125-134 | an update PATCHes the patch to the record path |
| Airtable.ListRequest | src/modules/http/airtable/client.ts:158-171 | a listing GETs the table path with the options as query parameters |
| Airtable.CreateRecord | src/modules/http/airtable/client.ts:52-76 | creation yields the record iff the response status is 200 or 201 |
| Airtable.GetRecord | src/modules/http/airtable/client.ts:85-108 | a read yields the record iff the status is 200 |
| Airtable.UpdateRecord | src/modules/http/airtable/client.ts:119-144 | an update yields the record iff the status is 200 |
| Airtable.ListRecords | src/modules/http/airtable/client.ts:153-181 | a listing yields the page iff the status is 200 |
| Airtable.CreatedOnlyAcceptedByCreate | src/modules/http/airtable/client.ts:68 | status 201 is accepted by creation and by no other operation |
| Airtable.TransportErrorsPropagate | src/modules/http/base/base-http-client.ts:67-70 | a transport failure reaches the caller unchanged for every operation |
| Config.GetEnv | src/modules/configuration/util.ts:8-11 | the read returns the effective value; a defined value is cached, an undefined read changes nothing, and no variable's effective value changes |
| Config.GetEnvCachesFirstValue | src/modules/configuration/util.ts:8-11 | after a defined read, later changes to the environment are invisible to that name |
| Config.UndefinedReadNotCached | src/modules/configuration/util.ts:8-11 | a name read while undefined picks up a value set later |
| Config.SetDefaultEnvVar | src/modules/configuration/util.ts:39-41 | an existing variable is left alone; an unset one is set and nothing else changes |
| Config.SetDefaultNeverOverwrites | src/modules/configuration/util.ts:39-41 | setting a default keeps an existing value, and a second default does nothing |
| Config.TransformNumber | src/modules/configuration/util.ts:19-30 | absent or empty is "<key> is not set"; otherwise the parseInt value, or "<key> is not a number" when none parses |
| Config.TransformNumberOfDecimal | src/modules/configuration/util.ts:24-29 | the decimal text of any integer, such as "3000", transforms to that integer (numbers taken as unbounded integers) |
| Config.TransformNumberRejectsText | src/modules/configuration/util.ts:26-28 | "abc" is not a number |
| Config.TransformNumberReadsPrefix | src/modules/configuration/util.ts:24 | parseInt reads a leading integer and ignores the rest: "12px" gives 12 |
| Config.Lookup | src/modules/configuration/mapping.ts:6-70 | a key has an entry iff the mapping binds it |
| Config.OrElse | src/modules/configuration/config.service.ts:29-31 | the first non-empty of the two values, or none; an empty text is never returned |
| Config.Get | src/modules/configuration/config.service.ts:29-31 | the variable if non-empty, else the default if non-empty, else null; empty counts as missing |
| Config.EmptyCountsAsMissing | src/modules/configuration/config.service.ts:29-31 | an empty variable yields the default, or null without one, and fails getRequired |
| Config.GetRequired | src/modules/configuration/config.service.ts:38-47 | the value when non-empty, else ConfigNotFoundError naming the key |
| Config.GetTransformed | src/modules/configuration/config.service.ts:54-62 | a key without a transform fails with "No transformation function found for key"; otherwise the transform's result or its error |
| Config.GetNamespacedKey | src/modules/configuration/config.service.ts:70-73 | the key is serviceId ++ d ++ namespace ++ d ++ key, with defaults "default" and ":" |
| Config.NamespacedKeySplits | src/modules/configuration/config.service.ts:70-73 | with no arguments the key is service:default:key, and a one-character delimiter absent from the parts splits it back into them |
| Config.IsDebugMode | src/modules/configuration/config.service.ts:78-80 | debug mode is on iff DEBUG lower-cases to exactly "true" |
| Config.DebugModeExamples | src/modules/configuration/config.service.ts:78-80 | "TRUE" turns it on, " true" and an unset DEBUG do not |
| Config.ValidateEnvVars | src/modules/configuration/index.ts:8-44 | the loop's verdict is that of the four name lists (missing/invalid × required/optional) taken over the whole mapping, and no variable's value changes |
| Config.NamesMembership | src/modules/configuration/index.ts:14-31 | a name is in a list iff some entry with that name has that requiredness and status |
| Config.NamesConcat | src/modules/configuration/index.ts:14-31 | lists keep mapping order: the names of two runs of entries are the first run's names followed by the second's |
| Config.NamesNonEmpty | src/modules/configuration/index.ts:33-43 | a list is non-empty iff some entry belongs in it |
| Config.VerdictCharacterised | src/modules/configuration/index.ts:33-43 | validation throws iff some required variable is missing or invalid, and is silent iff every variable is defined |
| Config.OptionalProblemsOnlyWarn | src/modules/configuration/index.ts:38-43 | with every required variable defined, validation never throws |
| Config.SourceMappingShape | src/modules/configuration/mapping.ts:6-70 | no entry of the shipped mapping has a transform, and only DEBUG is optional |
| Text.ParseInt | src/modules/configuration/util.ts:24 | parseInt gives NaN iff, after leading whitespace and one sign, no digit follows |
| Text.IntToString | src/modules/auth/util.ts:24 | the text of an integer is a '-' exactly when it is negative, followed by at least one decimal digit and nothing else |
| Text.ParseIntOfIntToString | src/modules/configuration/util.ts:24 | parseInt reads back the decimal text of every integer (numbers taken as unbounded integers) |
| Text.SplitJoin | src/modules/startups/startup.repository.ts:241 | joining separator-free parts and splitting on the separator gives back the parts |
| Base64.EncodeUrlAlphabet | src/modules/auth/util.ts:50-56 | base64url text uses only A–Z, a–z, 0–9, '-' and '_', so never '.' |
| Base64.EncodeStandardAlphabet | src/modules/startups/startup.pitchdeck.service.ts:124 | standard base64 text uses only A–Z, a–z, 0–9, '+', '/' and '=', so never '&' |
| Base64.EncodeLength | src/modules/auth/util.ts:56 | unpadded output is ⌈4n/3⌉ characters, padded output 4·⌈n/3⌉ |
| Base64.EncodingsDiffer | src/modules/auth/util.ts:81 | for a byte count not divisible by three, such as a 32-byte digest, standard base64 is longer than base64url and never equal |
| Base64.DecodeEncodeUrl | src/modules/auth/util.ts:50-51 | decoding base64url gives back the encoded bytes |
| Base64.EncodeUrlInjective | src/modules/auth/util.ts:50-51 | different bytes give different base64url texts |
| StartupTypes.ApplyPatch | src/modules/startups/startup.repository.ts:160-166 | a patch overwrites exactly its present cells and leaves every other field unchanged |
| Repository.MapSubmission | src/modules/startups/startup.repository.ts:230-253 | a new record is pending with view and upvote counts 0, the encoded tags, the student-build flag, no admin notes, both timestamps now, the submitter's email and deck, and the website and profile links exactly as given, absent when not given |
| Repository.EncodeTags | src/modules/startups/startup.repository.ts:241 | absent or empty tags are stored as ""; one tag is stored trimmed and lower-cased; two or more give a non-empty text |
| Repository.DecodeTags | src/modules/startups/startup.repository.ts:267 | the read tags are the comma-separated pieces of the text, each trimmed, at least one |
| Repository.DecodeOneTag | src/modules/startups/startup.repository.ts:267 | a text without a comma reads back as the one tag it holds, trimmed |
| Repository.Stored | src/modules/startups/startup.repository.ts:45-64 | models the store, not the code; createStartup is its caller: the store keeps every written cell except an empty optional text (tags, website, profile links) and an unticked student-build box, which read back absent |
| Repository.ReadTags | src/modules/startups/startup.repository.ts:267 | corrected read: an absent tags cell is no tags, as the empty-list fallback intends; a present one gives at least one piece |
| Repository.MapToStartup | src/modules/startups/startup.repository.ts:255-277 | the corrected read, which every modelled read and listing uses in place of the throwing line 267: the public view keeps id and status, reads a missing count as 0, reads an absent tags cell as no tags and otherwise decodes it, and passes the website and student-build cells through, absent when not stored |
| Repository.MapToStartupAsWritten | src/modules/startups/startup.repository.ts:267 | finding, as written: the read throws exactly when the tags cell is absent; when it does not, there is at least one tag, so the empty-list fallback never applies |
| Repository.MapToAdmin | src/modules/startups/startup.repository.ts:279-292 | the admin view is the public view plus contact email, pitch deck, admin notes and updated-at from the record |
| Repository.TagsRoundTrip | src/modules/startups/startup.repository.ts:241-267 | a non-empty list of comma-free tags reads back as each tag trimmed and lower-cased, in order |
| Repository.EmptyTagsReadBack | src/modules/startups/startup.repository.ts:241-267 | finding, corrected: absent or empty tags are stored as ""; a new record reads back with no tags exactly when its tags were stored as "", and comma-free tags stored non-empty read back trimmed and lower-cased, in order |
| Repository.TaglessSubmissionUnreadableAsWritten | src/modules/startups/startup.repository.ts:241-267 | finding, as written: reading a new record throws exactly when its tags were stored as "", in particular for every submission without tags; comma-free tags stored non-empty read back normalised |
| Repository.NewRecordReadsBack | src/modules/startups/startup.repository.ts:45-64 | a created record reads back pending, with zero counts and its id; its tags are none when stored as "" and otherwise the decoded stored text; its student-build flag is true when ticked and absent otherwise; its website is the one given, absent when not given or empty |
| Repository.AdminExtendsPublic | src/modules/startups/startup.repository.ts:279-292 | the admin read finds a record iff the public read does, and contains the public view unchanged |
| Repository.ClauseIf | src/modules/startups/startup.repository.ts:300-326 | a filter adds one clause iff its value is truthy |
| Repository.PublicClauses | src/modules/startups/startup.repository.ts:294-329 | the approved clause comes first, and it is the only clause exactly when no filter is given (a false student-build flag counts as given) |
| Repository.BuildAdminFilter | src/modules/startups/startup.repository.ts:331-339 | the admin formula is empty exactly when no status is asked for, and otherwise an AND( … ) of a status clause |
| Repository.BuildPublicFilter | src/modules/startups/startup.repository.ts:294-329 | the public formula always begins AND({Status} = "approved" and ends with ')' |
| Repository.PublicFilterClauses | src/modules/startups/startup.repository.ts:294-329 | one clause for approval plus one per present filter, the student flag even when false; no filters gives AND({Status} = "approved") |
| Repository.AdminFilterCharacterised | src/modules/startups/startup.repository.ts:331-339 | the admin formula is empty iff no status is asked for, and otherwise is AND({Status} = "<status>") |
| Repository.ListingOptions | src/modules/startups/startup.repository.ts:95-120 | listings send the filter, the limit as the maximum, newest first, and the offset as its decimal text |
| Repository.ListPublic | src/modules/startups/startup.repository.ts:95-120 | a store failure propagates; a null page is the empty list; otherwise every returned record is mapped in order and the total is their number |
| Repository.ListAdmin | src/modules/startups/startup.repository.ts:125-150 | as the public listing, with the admin filter and the admin view |
| Repository.GetStartup | src/modules/startups/startup.repository.ts:73-90 | a startup is found iff the table holds the id, and is the public view of its record |
| Repository.GetAdminStartup | src/modules/startups/startup.repository.ts:73-90 | the private read finds the same records and wraps the same public view |
| Repository.Patch | src/modules/startups/startup.repository.ts:155-181 | patching a missing id changes nothing and returns null; otherwise only that record changes, by the patch |
| Repository.CreateStartup | src/modules/startups/startup.repository.ts:45-64 | without a created record the call fails with "Failed to create startup record" and the table is unchanged; otherwise the new record is added under its id |
| Repository.StatusPatch | src/modules/startups/startup.repository.ts:160-166 | the update writes the status and updated-at, and the admin notes only when truthy |
| Repository.UpdateStartup | src/modules/startups/startup.repository.ts:155-181 | the update applies the status patch and returns the updated admin view iff the record exists |
| Repository.UpdateKeepsOtherFields | src/modules/startups/startup.repository.ts:160-166 | an update with empty notes changes the status and updated-at and keeps the notes and every public field |
| Repository.IncrementViewCount | src/modules/startups/startup.repository.ts:186-210 | a missing id fails with "Startup not found" and writes nothing; otherwise the view count becomes the old count (missing as 0) plus one |
| Repository.IncrementReadsBack | src/modules/startups/startup.repository.ts:186-210 | after an increment the public view count is one more, every other field is unchanged and other records are untouched |
| Repository.IncrementFromAbsent | src/modules/startups/startup.repository.ts:197 | an absent view count becomes 1 |
| Repository.UpdateUpvoteCount | src/modules/startups/startup.repository.ts:215-228 | the upvote count write patches only that cell of that record |
| Repository.WritesKeepWellFormed | src/modules/startups/startup.repository.ts:45-228 | creation, status update, view increment and upvote write all keep every record stored under its own id |
| StartupsService.SubmitStartup | src/modules/startups/startups.service.ts:29-50 | a created startup is reported with its id and the pending-review message; a creation failure is rethrown |
| StartupsService.GetPublicStartups | src/modules/startups/startups.service.ts:55-70 | the public listing under "Startups retrieved successfully"; a store failure is rethrown |
| StartupsService.GetStartupById | src/modules/startups/startups.service.ts:75-104 | a missing id gives "Startup not found" and a non-approved one "Startup not available"; only approved startups are returned |
| StartupsService.OnlyApprovedVisible | src/modules/startups/startups.service.ts:88-99 | the read succeeds iff the stored status is "approved" |
| StartupsService.SubmissionNotVisibleUntilApproved | src/modules/startups/startups.service.ts:29-104 | a newly submitted startup is not publicly readable |
| StartupsService.WithMetrics | src/modules/startups/startups.service.ts:116-133 | a startup keeps its listing when the lookup fails, and otherwise takes the table's counts |
| StartupsService.GetStartupsWithMetrics | src/modules/startups/startups.service.ts:109-147 | the listing keeps its length and total, and each startup is refreshed from the table |
| StartupsService.MetricsFromTable | src/modules/startups/startups.service.ts:116-142 | only the two counts change, they are the analytics counts, and a startup the table lacks is unchanged |
| StartupsService.SearchQuery | src/modules/startups/startups.service.ts:158-161 | the query is the filters with the search term added only where the filters set none |
| StartupsService.SearchStartups | src/modules/startups/startups.service.ts:152-164 | search is the public listing of the overlaid query |
| StartupsService.SearchFiltersWin | src/modules/startups/startups.service.ts:158-161 | a search term in the filters overrides the argument; other filters are kept next to the term |
| StartupsService.TrendingQuery | src/modules/startups/startups.service.ts:174-177 | trending asks for `limit` records from offset 0 with no filter |
| StartupsService.SectorQuery | src/modules/startups/startups.service.ts:209-219 | by-sector asks for the sector, limit (default 20) and offset 0 |
| StartupsService.StageQuery | src/modules/startups/startups.service.ts:224-234 | by-stage asks for the stage, limit (default 20) and offset 0 |
| StartupsService.SingleCriterionFilters | src/modules/startups/startups.service.ts:152-234 | the sector, stage and plain search listings filter on approval plus exactly their one criterion, dropped when empty; the search term is lower-cased and matched in the lower-cased name or description |
| StartupsService.GetStartupsBySector | src/modules/startups/startups.service.ts:209-219 | the public listing of the sector query |
| StartupsService.GetStartupsByStage | src/modules/startups/startups.service.ts:224-234 | the public listing of the stage query |
| StartupsService.GetTrendingStartups | src/modules/startups/startups.service.ts:169-204 | the output is sorted by score and is a prefix of the sorted listing, drawn from the listing. Its length is slice(0, limit) of the listing's, default 10, and the total counts the listing before the cut |
| StartupsService.TrendingTopIsBest | src/modules/startups/startups.service.ts:183-194 | the first trending startup is a listed one with the highest score |
| StartupsService.NegativeLimitDropsFromEnd | src/modules/startups/startups.service.ts:193 | a limit of -1 drops the last startup and 0 returns none, as slice does |
| Trending.Insert | src/modules/startups/startups.service.ts:183-187 | insertion into a sorted list keeps it sorted and adds exactly the new startup |
| Trending.SortByScore | src/modules/startups/startups.service.ts:183-187 | the trending order is a permutation of the listing, sorted non-increasingly by views + 2·upvotes |
| Trending.SliceEnd | src/modules/startups/startups.service.ts:193 | slice(0, limit) keeps min(limit, n) for a non-negative limit, and counts back from the end for a negative one |
| Trending.SortedPrefix | src/modules/startups/startups.service.ts:193 | cutting a sorted list keeps it sorted |
| Trending.SortIsStable | src/modules/startups/startups.service.ts:183-187 | startups with equal scores keep their listing order, as Array.prototype.sort does |
| Trending.StableOnTwo | src/modules/startups/startups.service.ts:183-187 | two equal scores stay in order |
| Trending.HigherScoreFirst | src/modules/startups/startups.service.ts:183-187 | a higher score moves ahead |
| Analytics.TrackView | src/modules/startups/startup.analytics.service.ts:25-67 | missing gives "Startup not found" and non-approved gives "Startup not available for viewing", with no write; approved increments the view count once and reports success |
| Analytics.TrackViewCounts | src/modules/startups/startup.analytics.service.ts:46-62 | a tracked view raises the reported view count by exactly one and keeps the upvote count; a refused one writes nothing |
| Analytics.TrackViewIsLocal | src/modules/startups/startup.analytics.service.ts:46 | other startups' records are untouched |
| Analytics.TrackContactRequest | src/modules/startups/startup.analytics.service.ts:72-122 | read with private fields: missing gives "Startup not found", non-approved "Startup not available for contact", otherwise success; nothing is written |
| Analytics.ContactAndViewGatedAlike | src/modules/startups/startup.analytics.service.ts:30-93 | contact and view tracking accept the same startups |
| Analytics.GetStartupAnalytics | src/modules/startups/startup.analytics.service.ts:127-146 | the stored counts, missing read as 0, whatever the status; a missing startup throws "Startup not found" |
| Engagement.ToggleUpvote | src/modules/startups/startup.engagement.service.ts:27-83 | see the paragraph after this table |
| Engagement.GetUpvoteCount | src/modules/startups/startup.engagement.service.ts:98-106 | the stored count, or 0 for a missing startup or a missing count |
| Engagement.NeverToggledNotUpvoted | src/modules/startups/startup.engagement.service.ts:88-93 | a user has not upvoted a startup that was never toggled, and the initial store records no upvote |
| Engagement.ToggleCountReadsBack | src/modules/startups/startup.engagement.service.ts:69-78 | the count in the response is the count then read back |
| Engagement.WrittenCountNonNegative | src/modules/startups/startup.engagement.service.ts:56-69 | a removal never writes a negative count, and an addition to a non-negative count writes a positive one |
| Engagement.ToggleKeepsApproval | src/modules/startups/startup.engagement.service.ts:69 | a toggle leaves the startup approved and readable |
| Engagement.DoubleToggleRestores | src/modules/startups/test/startup.engagement.service.test.ts:68-103 | two toggles restore every membership and flip the response twice. The count is restored unless the stored count was 0 with the user's upvote recorded, in which case it comes back as 1 |
| PitchDeck.AccessToken | src/modules/startups/startup.pitchdeck.service.ts:124 | the token is standard base64, so its characters are letters, digits, '+', '/' and '=' |
| PitchDeck.Separator | src/modules/startups/startup.pitchdeck.service.ts:125 | '&' iff the URL already contains '?', else '?' |
| PitchDeck.SecureUrl | src/modules/startups/startup.pitchdeck.service.ts:112-128 | the stored URL is a prefix, followed by the separator, then access_token=<token>&user=<id> |
| PitchDeck.AccessTokenParameterIntact | src/modules/startups/startup.pitchdeck.service.ts:124-127 | the token holds no '&', so splitting the query on '&' yields the whole token parameter first |
| PitchDeck.SeparatorExamples | src/modules/startups/startup.pitchdeck.service.ts:125 | a URL without a query gets '?', one with a query gets '&' |
| PitchDeck.GetPitchDeckAccess | src/modules/startups/startup.pitchdeck.service.ts:21-88 | missing gives "Startup not found", non-approved "Startup pitch deck not available", no deck "Pitch deck not available for this startup"; otherwise the secure URL expiring a day later |
| PitchDeck.ExpiresOneDayLater | src/modules/startups/startup.pitchdeck.service.ts:58-59 | granted access expires 24 hours after the request, taken as exactly 86,400,000 ms |
| PitchDeck.AccessIndependentOfUser | src/modules/startups/startup.pitchdeck.service.ts:21-88 | whether access is granted does not depend on the user, and refusals are identical for every user |
| PitchDeck.CanUserAccessPitchDecks | src/modules/startups/startup.pitchdeck.service.ts:94-106 | every user may access pitch decks |
| PitchDeck.RevokePitchDeckAccess | src/modules/startups/startup.pitchdeck.service.ts:133-153 | revocation always reports success |
| Admin.GetAdminStartups | src/modules/startups/startup.admin.service.ts:25-40 | the admin listing unchanged under "Startups retrieved successfully"; a store failure is rethrown |
| Admin.UpdateStartup | src/modules/startups/startup.admin.service.ts:45-71 | status and notes go to the repository unchanged; a missing id gives "Startup not found", otherwise "Startup updated successfully" with the updated record |
| Admin.UpdateMissingChangesNothing | src/modules/startups/startup.admin.service.ts:55-60 | updating a missing startup reports it and leaves the table as it was |
| Admin.UpdateReadsBack | src/modules/startups/startup.admin.service.ts:49-66 | after an update with notes, the record reads back with the new status, the notes and the time, and the response carries exactly that record |
| Admin.ApprovalPublishes | src/modules/startups/startup.admin.service.ts:45-71 | approving a startup makes it publicly readable as approved |
| Admin.GetAdminStartupById | src/modules/startups/startup.admin.service.ts:76-86 | the private view is returned iff the id exists, with the contact email |

Engagement.ToggleUpvote:

- A missing startup gives "Startup not found", and a non-approved one gives "Startup not available for upvoting". In both cases the store and the table are unchanged.
- Otherwise exactly that user's membership flips, and every other pair is unchanged.
- The count written is stored + 1 on adding and max(0, stored − 1) on removing. The response reports that count and the new state.

## Left out

- Logging, dependency injection and the HTTP controllers: they only move data to and from the modelled services.
- Time: reading the clock and formatting dates. dayjs's "add 7 days" is taken as 7·86400 seconds, ignoring calendar and DST effects. Timestamps are supplied texts.
- HMAC-SHA256, bcrypt, UTF-8 and JSON: these are function parameters with the stated laws, not implementations. hashPassword and comparePasswords are the store's `compare` function.
- Node's lenient base64url decoder, which skips characters outside the alphabet: the model's DecodeUrl rejects them. Every token the code issues decodes the same way either way.
- Text.Lower: lower-cases ASCII letters only. JavaScript's toLowerCase covers all of Unicode.
- Airtable's evaluation of filter formulas, sorting and pagination: the listing endpoint is an oracle. The formulas are built exactly, but their meaning is not modelled.
- Transport errors on single-record reads and writes, and a refused status on an update. The table map answers every read, and every write to an existing id succeeds: createRecord and updateRecord never throw and an update never returns null for a stored id. So the catch branch of getUpvoteCount and the failure paths of createStartup (src/modules/startups/startup.repository.ts:52-60), updateStartup (:168-177), incrementViewCount (:203-208) and updateUpvoteCount (:222-227), with the errors they would pass to submitStartup, trackView, toggleUpvote and the admin update, are not modelled. A create that returns null is modelled.
- The type of the Tags cell: the model takes it as text, following `Tags: string` in src/modules/startups/dto/types.ts:64 and the `join(', ')` on the write path. The test fixture src/test/generator.ts:192 gives the cell as an array, and the tag filter's `ARRAYJOIN({Tags}, ",")` (startup.repository.ts:318) also suggests a multi-select field. Under an array cell, `split` at startup.repository.ts:267 would throw for every tagged read as well, not only for the absent cell of the finding below.
- Engagement.GetUpvoteCount: does not model the `|| 0` on a NaN count, since counts are integers here.
- StartupsService.SearchQuery: an explicit `undefined` in the filters, which the spread would copy over the search term, is not distinguished from an absent property.
- StartupsService.GetTrendingStartups: the unreachable `return result` fallback after a successful listing is not modelled. The listing either throws or succeeds with data.
- Config.TransformNumberOfDecimal: numbers are unbounded integers, not JavaScript doubles. parseInt rounds above 2^53 and `${n}` switches to exponent notation from 1e21, so the round trip is promised only for integers JavaScript holds exactly.
- Text.ParseIntOfIntToString: the same restriction to unbounded integers; Text.IntToString is the decimal text JavaScript gives only for integral numbers below 1e21 in magnitude.
- PitchDeck.ExpiresOneDayLater: `setHours(getHours() + 24)` works in local time, so across a daylight-saving change the expiry is 23 or 25 hours later. The model takes it as 86,400,000 ms.
- Concurrency: Promise.all in getStartupsWithMetrics runs lookups with no shared writes, so the model evaluates them in order.
- Class-validator defaults and DTO validation applied by the controllers. The services are modelled on the values they receive.
- The in-memory upvote store is process-local and lost on restart. The model takes it as an input, so a store that disagrees with the table's count is possible; see Engagement.DoubleToggleRestores.
- The Redis module and background jobs: they are not part of the modelled core.

## Findings

| source | as written | input that shows it | evidently intended | confidence | as-written member | corrected member |
|---|---|---|---|---|---|---|
| src/modules/auth/util.ts:81 | the recomputed signature is encoded with `digest('base64')` | any issued token: its 32-byte digest is 43 base64url characters but 44 standard-base64 characters | `digest('base64url')`, the encoding used at issuance (util.ts:56) | high, not executed | Jwt.StandardDigestRejectsIssued | Jwt.CorrectedAcceptsIssued |
| src/modules/startups/startup.repository.ts:267 | `fields.Tags.split(',')` with no guard for an absent Tags cell; the empty-list fallback after it can never apply | a submission without tags: it is stored with Tags "", which the store omits, so reading the record (by id, or in any listing that includes it) throws a TypeError | an absent Tags cell reads as no tags, as the empty-list fallback intends | medium, not executed; rests on the store omitting empty text cells and on the Tags cell being text (types.ts:64), which the test fixture's array value contradicts | Repository.TaglessSubmissionUnreadableAsWritten | Repository.EmptyTagsReadBack |
| src/modules/auth/util.ts:77 | `JSON.parse(payload)` on the still-base64url-encoded segment | any issued token: its payload segment begins with 'e' (the encoding of '{'), which JSON.parse rejects | parse the base64url-decoded segment, as auth.service.ts:67-69 does | high, not executed | Jwt.EncodedPayloadParseThrows | Jwt.DecodedPayloadText |
