/** The demo's intended flow from the initial record: register one passkey,
    then authenticate with it, with verifiers that accept. */
module Scenario {
  import opened Types
  import Env
  import RegistrationOptionsRoute
  import AuthenticationOptionsRoute
  import RegistrationVerifyRoute
  import AuthenticationVerifyRoute

  const Key: seq<byte> := [165, 1, 2, 3]

  const Attestation: RegistrationVerifyRoute.RegistrationBody :=
    RegistrationVerifyRoute.RegistrationBody("attestation", RegistrationVerifyRoute.Present(Some([Internal, Hybrid])))

  const Assertion: AuthenticationVerifyRoute.AuthenticationBody :=
    AuthenticationVerifyRoute.AuthenticationBody("cred-1", "assertion")

  /** A verifier that accepts every attestation and reports counter 1. */
  function AcceptAttestation(c: RegistrationVerifyRoute.RegistrationCall): RegistrationVerifyRoute.RegistrationOutcome {
    RegistrationVerifyRoute.RegistrationResult(true, Some(RegistrationVerifyRoute.NewCredential("cred-1", Key, 1)))
  }

  /** The library's complaint when the reported counter 2 does not exceed a
      stored 2. */
  const CounterError: Thrown := ErrorInstance("Response counter value 2 was lower than expected 2")

  /** A verifier for an authenticator that reports counter 2: it accepts the
      assertion while the stored counter is below 2 and, following the
      library's counter rule, throws otherwise. */
  function AcceptAssertion(c: AuthenticationVerifyRoute.AuthenticationCall): AuthenticationVerifyRoute.AuthenticationOutcome {
    if c.credential.counter < 2 then
      AuthenticationVerifyRoute.AuthenticationResult(true, Some(AuthenticationVerifyRoute.AuthenticationInfo(2)))
    else
      AuthenticationVerifyRoute.AuthenticationThrew(CounterError)
  }

  /** Registration from the initial record excludes nothing and stores exactly
      one credential; the following authentication options allow exactly that
      credential, and a verified assertion sets its counter to 2. Replaying the
      same assertion reaches the verifier again, since the challenge is still
      pending; it is the verifier's counter rule that answers 400. */
  lemma RegisterThenAuthenticate()
    ensures var t1 := RegistrationOptionsRoute.Post(Env.DemoUser, Generated("c1"));
      var t2 := RegistrationVerifyRoute.Post(t1.user, Parsed(Attestation), AcceptAttestation);
      var t3 := AuthenticationOptionsRoute.Post(t2.user, Generated("c2"));
      var t4 := AuthenticationVerifyRoute.Post(t3.user, Parsed(Assertion), AcceptAssertion);
      var t5 := AuthenticationVerifyRoute.Post(t4.user, Parsed(Assertion), AcceptAssertion);
      && t1.response.body.registration.excludeCredentials == []
      && t2.response.body == VerifyBody(true, t2.user)
      && t2.user.credentials == [Credential("cred-1", Key, 1, Some([Internal, Hybrid]))]
      && t3.response.body.authentication.allowCredentials == t2.user.credentials
      && t4.response.body == VerifyBody(true, t4.user)
      && t4.user.credentials == [Credential("cred-1", Key, 2, Some([Internal, Hybrid]))]
      && t4.user.currentChallenge == Some("c2")
      && AuthenticationVerifyRoute.FollowsCounterRule(AcceptAssertion)
      && t4.user.HasChallenge()
      && t5 == Transition(Response(400, ErrorBody(AuthenticationVerifyRoute.FailureMessage(CounterError))), t4.user)
  {
  }
}
