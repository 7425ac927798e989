# Passkey demo relying party: the WebAuthn ceremony state machine

This project models the server side of a Next.js passkey demo. Four POST route
handlers run the two WebAuthn ceremonies of W3C Web Authentication Level 2:
section 7.1 "Registering a New Credential" and section 7.2 "Verifying an
Authentication Assertion". All server state is one mutable `demoUser` record.
It holds an identity, a single optional `currentChallenge` shared by both
ceremonies, and an ordered list of credentials `{id, publicKey, counter, transports}`.

In the model that record is the immutable datatype `Types.User`. Each handler
is a pure function `Post` from a `User`, plus what the library did, to a
`Transition`. A transition is the HTTP response (status and JSON body) and the
record left behind. The library calls are parameters:

- `generateRegistrationOptions` and `generateAuthenticationOptions` become a
  `GeneratorOutcome` value: a failure, or options carrying an arbitrary challenge string.
- `verifyRegistrationResponse` and `verifyAuthenticationResponse` become
  verifier functions from the call's arguments to an outcome. The outcome is a
  throw, or `{verified, registrationInfo}` / `{verified, authenticationInfo}`.
  Because the verifier is a function of its arguments, the model can state
  which challenge, origin, RP ID and credential it is asked about.

Modules:

- `Types`: the record, credentials, the response shapes, and the falsy-challenge guard `User.HasChallenge`.
- `Env`: the configuration constants and the initial record.
- `Credentials`: first-match lookup by id and the counter overwrite.
- `RegistrationOptionsRoute`, `AuthenticationOptionsRoute`, `RegistrationVerifyRoute`, `AuthenticationVerifyRoute`: one module per route file.
- `Session`: any sequence of requests, and the invariants that hold along it.
- `Gaps`: the protections the handlers do not implement, each stated as what they do instead.
- `Scenario`: the demo's register-then-authenticate flow from the initial record.

The model follows the code as written, including its gaps:

- the challenge is never cleared;
- one challenge field serves both ceremonies;
- there is no expiry;
- duplicate credential ids are not rejected;
- the counter is overwritten without comparison.

The guard `if (!demoUser.currentChallenge)` uses JavaScript truthiness. It
rejects an empty-string challenge as well as an absent one, and
`User.HasChallenge` says exactly that. A body that `request.json()` cannot parse
throws inside the try block. That happens after the guard, so the answer is a
400 carrying the parse error's message. A registration body whose `response`
member is absent or `null` is modelled too: the handler reads
`response.transports` only after verification succeeds, so that read throws a
TypeError (with Node.js's message text) and the answer is a 400 with nothing
stored.

## Model

| member | source | states |
|---|---|---|
| RegistrationOptionsRoute.Post | src/app/api/registration/options/route.ts:9-44 | on success the pending challenge becomes the generated one, whatever was pending before; the answer is 200 with options carrying that challenge; identity and credential list are unchanged on every path; a generator failure answers 500 and leaves the record exactly as it was |
| RegistrationOptionsRoute.OptionsContent | src/app/api/registration/options/route.ts:15-30 | returned options name rpID `localhost`, rpName `Passkey Demo` and the user's username and display name; they ask for a 60000 ms timeout and attestation `none`; they exclude no credential however many are registered; resident key and user verification are `preferred` |
| AuthenticationOptionsRoute.Post | src/app/api/authentication/options/route.ts:9-36 | on success the shared challenge field is overwritten with the new challenge, replacing a pending registration challenge; credentials, counters included, and identity are unchanged; a generator failure answers 500 and leaves the record as it was |
| AuthenticationOptionsRoute.OptionsContent | src/app/api/authentication/options/route.ts:12-22 | the allow-list is exactly the registered credentials, in registration order; rpID is `localhost`, the timeout 60000 ms, user verification `preferred` |
| RegistrationVerifyRoute.Post | src/app/api/registration/verify/route.ts:13-60 | no pending challenge: 400 with the record unchanged; unparsable body or verifier throw: 400 with the thrown text and the record unchanged; verified with info: exactly one credential appended at the end, prior ones kept in order, with id, public key and counter from `registrationInfo` and transports from the body, answered 200 `{verified: true, user}`; verified but the body has no `response` object: the transports read throws a TypeError, 400, nothing stored; otherwise 200 with the verifier's flag and nothing changed; the challenge and identity are never written on any path |
| RegistrationVerifyRoute.VerifierSeesPendingChallenge | src/app/api/registration/verify/route.ts:24-32 | the verifier is consulted only with the stored challenge, origin `http://localhost:3000`, RP ID `localhost`, the posted body, and user verification not required: two verifiers that agree there give identical transitions |
| Credentials.FindIndex | src/app/api/authentication/verify/route.ts:25 | a returned index holds the first credential in list order whose id equals the requested one; no result means no credential has that id |
| Credentials.FindIndexIsFirstMatch | src/app/api/authentication/verify/route.ts:25 | the lookup returns index i exactly when i is the first match, and finds nothing exactly when no credential has the id |
| Credentials.WithCounter | src/app/api/authentication/verify/route.ts:48-50 | overwriting one counter keeps the length, that credential's id, key and transports, and every other credential |
| AuthenticationVerifyRoute.Post | src/app/api/authentication/verify/route.ts:13-64 | no pending challenge: 400 before any lookup, record unchanged; unparsable body: 400; no credential with `rawId`: 400 "not registered", record unchanged; verifier throw: 400, nothing changes; verified with info: only the first matching credential's counter becomes `newCounter`, every other credential, the length and the challenge unchanged, 200 `{verified: true, user}`; otherwise 200 with the verifier's flag and nothing changed |
| AuthenticationVerifyRoute.VerifierSeesFirstMatch | src/app/api/authentication/verify/route.ts:25-43 | the verifier is consulted only with the stored challenge, the literal origin, RP ID `localhost`, the posted body, user verification not required, and the first credential whose id equals `rawId` |
| Session.StepInvariant | src/app/api/registration/verify/route.ts:40-45 | any one request keeps the identity and keeps every credential in place up to its counter; it adds at most one credential, and only a registration-verify request can (the push here); it never clears a pending challenge; only options requests change the challenge (registration/options/route.ts:34, authentication/options/route.ts:25); only authentication-verify requests change a counter (authentication/verify/route.ts:49) |
| Session.RunInvariant | src/app/api/registration/verify/route.ts:37-46 | over any sequence of requests the identity is fixed; credentials are append-only up to counters; the list grows by at most the number of registration-verify requests; a pending challenge is never cleared |
| Session.ChallengeOnlySetByOptions | src/app/api/authentication/verify/route.ts:13-64 | a sequence without options requests leaves the challenge exactly as it was: verification never consumes it |
| Session.CountersOnlySetByAuthentication | src/app/api/authentication/verify/route.ts:48-50 | a sequence without authentication-verify requests leaves every existing credential, counter included, as it was |
| Gaps.DuplicateIdAccepted | src/app/api/registration/verify/route.ts:37-46 | a verified registration, posted with a `response` object, whose id is already registered is still appended: the list grows by one and two entries share the id |
| Gaps.ShadowedDuplicateNeverUpdated | src/app/api/authentication/verify/route.ts:25 | a credential preceded by another with the same id is never changed by any authentication request |
| Gaps.CounterMayDecrease | src/app/api/authentication/verify/route.ts:49 | the handler does no counter comparison: if the verifier accepts an assertion that reports a smaller counter, the stored counter goes down and the answer is verified; the library's verifier throws instead, so this is the handler under an arbitrary verifier |
| Gaps.ReplayAccepted | src/app/api/authentication/verify/route.ts:36-50 | under an arbitrary verifier that accepts any assertion over the pending challenge, the same assertion posted twice is verified both times and the second post changes nothing |
| AuthenticationVerifyRoute.CounterRuleKeepsCountersMonotone | src/app/api/authentication/verify/route.ts:36-50 | with a verifier that follows the library's counter rule (section 7.2 of W3C Web Authentication Level 2), no stored counter decreases, and a counter that changes passes that rule: monotonicity comes from the verifier, not the handler |
| Session.CountersMonotoneUnderCounterRule | src/app/api/authentication/verify/route.ts:48-50 | over any sequence of requests whose authentication verifiers follow the counter rule, no stored counter ever decreases |
| Gaps.ReplayAcceptedWithoutCounter | src/app/api/authentication/verify/route.ts:13-64 | for an authenticator that reports no counter (stored and reported 0), a verifier that follows the counter rule can still accept the same assertion twice: both posts are verified and nothing changes, since the challenge is never consumed |
| Gaps.RegistrationChallengeServesAuthentication | src/app/api/authentication/verify/route.ts:15-38 | a challenge stored by the registration-options handler passes the authentication guard and is the expected challenge of the assertion check |
| Gaps.AuthenticationOptionsDropRegistrationChallenge | src/app/api/authentication/options/route.ts:25 | requesting authentication options after registration options replaces the registration challenge, so registration verification then expects the newer one |
| Gaps.EmptyChallengeRejected | src/app/api/registration/verify/route.ts:15-20 | an empty generated challenge is stored, but both verify handlers answer 400 because the guard treats it as absent |
| Scenario.RegisterThenAuthenticate | src/env.ts:6-12 | from the initial record: registration options exclude nothing; an accepted attestation stores one credential with counter 1; authentication options allow exactly it; an assertion reporting 2 sets its counter to 2; replaying that assertion still passes the challenge guard, and it is the verifier following the library's counter rule that throws, answered 400 with the record unchanged |

## Left out

- Concurrency: simultaneous requests on the shared record are not modelled. Each handler is one sequential transition; `async`/`await` is not modelled.
- The verifier oracles are unconstrained: any function of the call's arguments is allowed, including one that ignores the library's own counter check (the assertion verifier throws when the reported counter does not exceed the stored one and either is non-zero). `Gaps.CounterMayDecrease` and `Gaps.ReplayAccepted` describe the handlers under such an arbitrary verifier. `AuthenticationVerifyRoute.FollowsCounterRule` states the library's rule as a hypothesis, and `CounterRuleKeepsCountersMonotone`, `Session.CountersMonotoneUnderCounterRule`, `Gaps.ReplayAcceptedWithoutCounter` and the Scenario's replay use it.
- Library internals are not modelled: random challenge generation, attestation and assertion signature checks, COSE keys, and origin/RP ID hash comparison. They are oracles (the `GeneratorOutcome` value and the verifier functions).
- Options responses: the model records only the arguments the handler passes to the generator, plus the challenge. The library adds other fields (for example `pubKeyCredParams` and a random user handle); these are not modelled.
- Request bodies: only the fields the handlers read themselves are modelled, namely `rawId` and `response.transports`. The rest is an opaque payload that only the verifier sees.
- Transport hints: the handler stores `response.transports` exactly as the client sent it, since the body is an unchecked cast. The model limits each entry to the seven AuthenticatorTransportFuture values; no stated property depends on which values occur.
- A registration body's `response` that is a non-object value other than `null` (a number, say) is not distinguished from an object without `transports`.
- An assertion body lacking `rawId` matches no credential, so it behaves like a `rawId` no credential carries; the model has no separate case for it.
- Property accesses that throw on a parsed body that is not an object (`null.rawId`) end in the same 400 catch as a parse failure. They are folded into `Unparsable`, whose message stands for the thrown text.
- Counters are unbounded naturals. A JavaScript number, or a 32-bit authenticator counter, never exceeds that range in the flows modelled.
- Console logging, `NextResponse.json` plumbing and the React UI (`passkey-demo.tsx`, `log.tsx`, `page.tsx`) are not modelled. They are not server logic.
- Some protections are described for a full relying party but are absent from the code: single-use challenge consumption, expiry, per-ceremony challenges, duplicate-id rejection, credential-owner binding and clone detection by counter comparison. The model follows the code and does not include them. `Gaps` states what the handlers do in their place.
