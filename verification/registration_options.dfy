/** POST /api/registration/options: asks the library for creation options and
    stores their challenge as the user's pending challenge. */
module RegistrationOptionsRoute {
  import opened Types
  import Env

  const FailureMessage: string := "Failed to generate registration options"

  /** The arguments handed to `generateRegistrationOptions` for user `u`. */
  function Params(u: User): RegistrationParams {
    RegistrationParams(
      Env.RpName, Env.RpId, u.username, u.displayName, Env.Timeout, AttestationNone,
      [], AuthenticatorSelection(Preferred, Preferred))
  }

  /** The handler, given what the generator did. The challenge is written only
      after the generator returns, so a failure leaves the record untouched. */
  function Post(u: User, gen: GeneratorOutcome): (t: Transition)
    // Nothing but the challenge is ever written.
    ensures SameIdentity(u, t.user) && t.user.credentials == u.credentials
    // Last writer wins: the new challenge replaces whatever was pending.
    ensures gen.Generated? ==> t.user.currentChallenge == Some(gen.challenge)
    ensures gen.Generated? ==> t.response.status == 200
    ensures gen.Generated? ==> t.response.body.RegistrationOptionsBody?
    ensures gen.Generated? ==> t.response.body.challenge == gen.challenge
    ensures gen.GenerationFailed? ==> t.response == Response(500, ErrorBody(FailureMessage))
    ensures gen.GenerationFailed? ==> t.user == u
  {
    match gen
    case GenerationFailed => Transition(Response(500, ErrorBody(FailureMessage)), u)
    case Generated(c) =>
      Transition(Response(200, RegistrationOptionsBody(Params(u), c)), u.(currentChallenge := Some(c)))
  }

  /** Whatever options the handler returns name this relying party and this
      user, ask for a 60 second timeout and no attestation, prefer resident
      keys and user verification, and exclude nothing, however many
      credentials are already registered. */
  lemma OptionsContent(u: User, gen: GeneratorOutcome)
    ensures var b := Post(u, gen).response.body;
      b.RegistrationOptionsBody? ==>
        && b.registration.rpID == Env.RpId
        && b.registration.rpName == Env.RpName
        && b.registration.userName == u.username
        && b.registration.userDisplayName == u.displayName
        && b.registration.timeout == 60000
        && b.registration.attestationType == AttestationNone
        && b.registration.excludeCredentials == []
        && b.registration.authenticatorSelection == AuthenticatorSelection(Preferred, Preferred)
  {
  }
}
