/** Any sequence of requests to the four routes, applied one after another to
    the shared record, and what stays true along the way. */
module Session {
  import opened Types
  import Credentials
  import RegistrationOptionsRoute
  import AuthenticationOptionsRoute
  import RegistrationVerifyRoute
  import AuthenticationVerifyRoute

  /** One POST to one of the four routes, with whatever the library did. */
  datatype Request =
    | RegistrationOptions(registrationGen: GeneratorOutcome)
    | AuthenticationOptions(authenticationGen: GeneratorOutcome)
    | RegistrationVerify(
        registration: Json<RegistrationVerifyRoute.RegistrationBody>,
        registrationVerifier: RegistrationVerifyRoute.Verifier)
    | AuthenticationVerify(
        authentication: Json<AuthenticationVerifyRoute.AuthenticationBody>,
        authenticationVerifier: AuthenticationVerifyRoute.Verifier)

  /** Dispatches a request to its route handler. */
  function Step(u: User, r: Request): Transition {
    match r
    case RegistrationOptions(g) => RegistrationOptionsRoute.Post(u, g)
    case AuthenticationOptions(g) => AuthenticationOptionsRoute.Post(u, g)
    case RegistrationVerify(b, v) => RegistrationVerifyRoute.Post(u, b, v)
    case AuthenticationVerify(b, v) => AuthenticationVerifyRoute.Post(u, b, v)
  }

  /** The record after serving `rs` in order. */
  function Run(u: User, rs: seq<Request>): User
    decreases |rs|
  {
    if |rs| == 0 then u else Run(Step(u, rs[0]).user, rs[1..])
  }

  /** How many of `rs` are registration-verify requests. */
  function Registrations(rs: seq<Request>): nat
    decreases |rs|
  {
    if |rs| == 0 then 0
    else (if rs[0].RegistrationVerify? then 1 else 0) + Registrations(rs[1..])
  }

  predicate IsOptions(r: Request) {
    r.RegistrationOptions? || r.AuthenticationOptions?
  }

  /** One request keeps the identity, keeps every registered credential in its
      place up to its counter, adds at most one credential and only on a
      registration, and never clears a pending challenge. */
  lemma StepInvariant(u: User, r: Request)
    ensures var v := Step(u, r).user;
      && SameIdentity(u, v)
      && Credentials.Extends(u.credentials, v.credentials)
      && |v.credentials| <= |u.credentials| + (if r.RegistrationVerify? then 1 else 0)
      && (u.currentChallenge.Some? ==> v.currentChallenge.Some?)
      && (!IsOptions(r) ==> v.currentChallenge == u.currentChallenge)
      && (!r.AuthenticationVerify? ==> v.credentials[..|u.credentials|] == u.credentials)
  {
  }

  /** The same facts over a whole run: the identity is fixed, credentials are
      append-only up to counters, the list grows by at most one per
      registration request, and once a challenge is pending one stays pending. */
  lemma {:induction false} RunInvariant(u: User, rs: seq<Request>)
    ensures var v := Run(u, rs);
      && SameIdentity(u, v)
      && Credentials.Extends(u.credentials, v.credentials)
      && |v.credentials| <= |u.credentials| + Registrations(rs)
      && (u.currentChallenge.Some? ==> v.currentChallenge.Some?)
    decreases |rs|
  {
    if |rs| > 0 {
      var w := Step(u, rs[0]).user;
      StepInvariant(u, rs[0]);
      RunInvariant(w, rs[1..]);
      Credentials.ExtendsTransitive(u.credentials, w.credentials, Run(w, rs[1..]).credentials);
    }
  }

  /** Without an options request the pending challenge never changes: the
      verify handlers neither consume nor replace it. */
  lemma {:induction false} ChallengeOnlySetByOptions(u: User, rs: seq<Request>)
    requires forall k :: 0 <= k < |rs| ==> !IsOptions(rs[k])
    ensures Run(u, rs).currentChallenge == u.currentChallenge
    decreases |rs|
  {
    if |rs| > 0 {
      StepInvariant(u, rs[0]);
      ChallengeOnlySetByOptions(Step(u, rs[0]).user, rs[1..]);
    }
  }

  /** Without an authentication-verify request no counter of an existing
      credential changes. */
  lemma {:induction false} CountersOnlySetByAuthentication(u: User, rs: seq<Request>)
    requires forall k :: 0 <= k < |rs| ==> !rs[k].AuthenticationVerify?
    ensures var v := Run(u, rs);
      |u.credentials| <= |v.credentials| && v.credentials[..|u.credentials|] == u.credentials
    decreases |rs|
  {
    if |rs| > 0 {
      var w := Step(u, rs[0]).user;
      StepInvariant(u, rs[0]);
      CountersOnlySetByAuthentication(w, rs[1..]);
      var v := Run(w, rs[1..]);
      assert v.credentials[..|u.credentials|] == v.credentials[..|w.credentials|][..|u.credentials|];
    }
  }

  /** Over any run whose authentication verifiers follow the library's counter
      rule, no stored counter ever decreases. The handlers contribute only the
      frame; the monotonicity itself is the verifier's. */
  lemma {:induction false} CountersMonotoneUnderCounterRule(u: User, rs: seq<Request>)
    requires forall k :: 0 <= k < |rs| && rs[k].AuthenticationVerify? ==>
      AuthenticationVerifyRoute.FollowsCounterRule(rs[k].authenticationVerifier)
    ensures Credentials.CountersGrow(u.credentials, Run(u, rs).credentials)
    decreases |rs|
  {
    if |rs| > 0 {
      var w := Step(u, rs[0]).user;
      StepInvariant(u, rs[0]);
      if rs[0].AuthenticationVerify? {
        AuthenticationVerifyRoute.CounterRuleKeepsCountersMonotone(u, rs[0].authentication, rs[0].authenticationVerifier);
      } else {
        assert w.credentials[..|u.credentials|] == u.credentials;
        assert forall j :: 0 <= j < |u.credentials| ==> w.credentials[j] == w.credentials[..|u.credentials|][j];
      }
      CountersMonotoneUnderCounterRule(w, rs[1..]);
      Credentials.CountersGrowTransitive(u.credentials, w.credentials, Run(w, rs[1..]).credentials);
    }
  }
}
