/** The server's state and the wire shapes of the four WebAuthn route handlers.

    The whole relying-party state is one `User` record: a single pending
    challenge shared by both ceremonies and an ordered list of registered
    credentials. Every handler is a pure transition from a `User` to a
    `Transition` (the HTTP response it sends and the record it leaves behind).
 */
module Types {

  /** `Some(v)` for a defined value, `None` for JavaScript's `undefined`. */
  datatype Option<+T> = None | Some(value: T)

  newtype byte = b: int | 0 <= b < 256

  /** Transport hints a browser may report (AuthenticatorTransportFuture). */
  datatype Transport = Ble | Cable | Hybrid | Internal | Nfc | SmartCard | Usb

  /** One registered public-key credential (WebAuthnCredential). */
  datatype Credential = Credential(
    id: string,
    publicKey: seq<byte>,
    counter: nat,
    transports: Option<seq<Transport>>)

  /** The single demo user and everything the server remembers about it. */
  datatype User = User(
    id: string,
    username: string,
    displayName: string,
    currentChallenge: Option<string>,
    credentials: seq<Credential>)
  {
    /** The guard `!currentChallenge` fails for `undefined` and for the empty
        string alike, since both are falsy in JavaScript. */
    predicate HasChallenge() {
      currentChallenge.Some? && currentChallenge.value != ""
    }
  }

  /** What a `throw` carried: an `Error` instance with its message, or any
      other value. */
  datatype Thrown = ErrorInstance(message: string) | OtherValue

  /** The text a catch block reports for a thrown value. */
  function ThrownText(t: Thrown): string {
    match t
    case ErrorInstance(m) => m
    case OtherValue => "Unknown error"
  }

  /** A request body as `request.json()` sees it: parsed, or a parse error
      (which is thrown, as a `SyntaxError`, inside the handler's try block). */
  datatype Json<+T> = Parsed(body: T) | Unparsable(message: string)

  /** The outcome of an options generator: the library either throws or
      returns options carrying a fresh challenge string. */
  datatype GeneratorOutcome = GenerationFailed | Generated(challenge: string)

  datatype Preference = Required | Preferred | Discouraged

  datatype AttestationType = AttestationNone | AttestationIndirect | AttestationDirect | AttestationEnterprise

  datatype AuthenticatorSelection = AuthenticatorSelection(residentKey: Preference, userVerification: Preference)

  /** The arguments the registration-options handler passes to
      `generateRegistrationOptions`. */
  datatype RegistrationParams = RegistrationParams(
    rpName: string,
    rpID: string,
    userName: string,
    userDisplayName: string,
    timeout: nat,
    attestationType: AttestationType,
    excludeCredentials: seq<Credential>,
    authenticatorSelection: AuthenticatorSelection)

  /** The arguments the authentication-options handler passes to
      `generateAuthenticationOptions`. */
  datatype AuthenticationParams = AuthenticationParams(
    rpID: string,
    timeout: nat,
    userVerification: Preference,
    allowCredentials: seq<Credential>)

  /** The JSON body a handler answers with. */
  datatype Body =
    | ErrorBody(error: string)
    | RegistrationOptionsBody(registration: RegistrationParams, challenge: string)
    | AuthenticationOptionsBody(authentication: AuthenticationParams, challenge: string)
    | VerifyBody(verified: bool, user: User)

  datatype Response = Response(status: nat, body: Body)

  /** What one handler invocation produces: the response and the new state. */
  datatype Transition = Transition(response: Response, user: User)

  /** The identity fields no handler ever writes. */
  predicate SameIdentity(u: User, v: User) {
    u.id == v.id && u.username == v.username && u.displayName == v.displayName
  }
}

/** The fixed configuration of the relying party and its initial state. */
module Env {
  import opened Types

  const RpId: string := "localhost"
  const RpName: string := "Passkey Demo"
  const Origin: string := "http://localhost:3000"

  /** The ceremony timeout both options handlers request, in milliseconds. */
  const Timeout: nat := 60000

  /** The record the server starts with: no challenge and no credentials. */
  const DemoUser: User := User("demo-user-id", "demo-user@example.com", "Demo User", None, [])
}
