/** The credential list of the user: lookup by id (Array.prototype.find) and
    the in-place counter overwrite of a successful authentication. */
module Credentials {
  import opened Types

  /** Some credential in `creds` carries identifier `id`. */
  predicate HasId(creds: seq<Credential>, id: string) {
    exists j :: 0 <= j < |creds| && creds[j].id == id
  }

  /** Index `i` holds the first credential, in list order, whose id is `id`. */
  predicate IsFirstMatch(creds: seq<Credential>, id: string, i: nat) {
    && i < |creds|
    && creds[i].id == id
    && forall j :: 0 <= j < i ==> creds[j].id != id
  }

  /** The index `find(cred => cred.id === id)` stops at, if any. */
  function FindIndex(creds: seq<Credential>, id: string): (r: Option<nat>)
    ensures r.Some? ==> IsFirstMatch(creds, id, r.value)
    ensures r.None? ==> forall j :: 0 <= j < |creds| ==> creds[j].id != id
  {
    if |creds| == 0 then None
    else if creds[0].id == id then Some(0)
    else match FindIndex(creds[1..], id)
      case None => None
      case Some(k) => Some(k + 1)
  }

  /** `FindIndex` agrees with the declarative first-match definition in both
      directions, and fails exactly when no credential has the id. */
  lemma FindIndexIsFirstMatch(creds: seq<Credential>, id: string, i: nat)
    ensures FindIndex(creds, id) == Some(i) <==> IsFirstMatch(creds, id, i)
    ensures FindIndex(creds, id).None? <==> !HasId(creds, id)
  {
  }

  /** `creds` after `credential.counter = n` on the credential at index `i`. */
  function WithCounter(creds: seq<Credential>, i: nat, n: nat): (r: seq<Credential>)
    requires i < |creds|
    ensures |r| == |creds|
    ensures r[i].counter == n
    ensures r[i].id == creds[i].id && r[i].publicKey == creds[i].publicKey
    ensures r[i].transports == creds[i].transports
    ensures forall j :: 0 <= j < |creds| && j != i ==> r[j] == creds[j]
  {
    creds[i := creds[i].(counter := n)]
  }

  /** Two credentials agree on everything but their counters. */
  predicate SameKey(a: Credential, b: Credential) {
    a.id == b.id && a.publicKey == b.publicKey && a.transports == b.transports
  }

  /** `later` keeps every credential of `earlier`, in its place, up to
      counters, and may have more appended after them. */
  predicate Extends(earlier: seq<Credential>, later: seq<Credential>) {
    && |earlier| <= |later|
    && forall j :: 0 <= j < |earlier| ==> SameKey(earlier[j], later[j])
  }

  lemma ExtendsTransitive(a: seq<Credential>, b: seq<Credential>, c: seq<Credential>)
    requires Extends(a, b) && Extends(b, c)
    ensures Extends(a, c)
  {
  }

  /** `later` has at least the entries of `earlier`, none with a smaller
      counter. */
  predicate CountersGrow(earlier: seq<Credential>, later: seq<Credential>) {
    && |earlier| <= |later|
    && forall j :: 0 <= j < |earlier| ==> earlier[j].counter <= later[j].counter
  }

  lemma CountersGrowTransitive(a: seq<Credential>, b: seq<Credential>, c: seq<Credential>)
    requires CountersGrow(a, b) && CountersGrow(b, c)
    ensures CountersGrow(a, c)
  {
  }
}
