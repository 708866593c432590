/** The OAuth clients, registered on first use and again when the provider behind one changes. */
module OAuthClients {
  import opened PyText
  import opened Providers

  /** What the library bakes into a client. */
  datatype Registration =
    | Discovered(name: string, clientId: string, clientSecret: string, scope: string, metadataUrl: string)
    | Explicit(name: string, clientId: string, clientSecret: string, scope: string, authorizeUrl: string,
               tokenUrl: string,
               apiBaseUrl: string, jwksUri: Option<string>)

  /** `_register_kwargs`. */
  function RegisterArguments(p: OAuthProvider): Registration {
    if p.IsOidc() then Discovered(p.name, p.clientId, p.clientSecret, p.scopes, p.discoveryUrl)
    else Explicit(p.name, p.clientId, p.clientSecret, p.scopes, p.authorizeUrl, p.tokenUrl, p.userinfoUrl,
                  if p.jwksUrl != "" then Some(p.jwksUrl) else None)
  }

  datatype Fingerprint = Fingerprint(clientId: string, clientSecret: string, scopes: string, discoveryUrl: string,
                                     authorizeUrl: string, tokenUrl: string, userinfoUrl: string, jwksUrl: string)

  /** `_fingerprint`. */
  function FingerprintOf(p: OAuthProvider): Fingerprint {
    Fingerprint(p.clientId, p.clientSecret, p.scopes, p.discoveryUrl, p.authorizeUrl, p.tokenUrl, p.userinfoUrl,
                p.jwksUrl)
  }

  /** A built client; the serial number tells one object from another. */
  datatype Client = Client(built: Registration, serial: nat)

  datatype State = State(fingerprints: map<string, Fingerprint>, registry: map<string, Registration>,
                         clients: map<string, Client>, built: nat)

  /** The library's registry, with the fingerprints the panel keeps beside it. */
  class ClientCache {
    var fingerprints: map<string, Fingerprint>
    var registry: map<string, Registration>
    var clients: map<string, Client>
    var built: nat

    constructor ()
      ensures Value() == State(map[], map[], map[], 0)
    {
      fingerprints, registry, clients, built := map[], map[], map[], 0;
    }

    function Value(): State
      reads this
    {
      State(fingerprints, registry, clients, built)
    }

    /** The library's `create_client`: a client built before is returned as it is, whatever is registered by now. */
    method CreateClient(name: string) returns (client: Option<Client>)
      modifies this`clients, this`built
      ensures client == Created(old(Value()), name).0 && Value() == Created(old(Value()), name).1
    {
      if name in clients { return Some(clients[name]); }
      if name !in registry { return None; }
      clients, built := clients[name := Client(registry[name], built)], built + 1;
      return Some(clients[name]);
    }

    /** `_client`; `None` stands for `OAuthError`. */
    method ClientFor(p: OAuthProvider) returns (client: Option<Client>)
      modifies this
      ensures client == Answer(old(Value()), p).0 && Value() == Answer(old(Value()), p).1
    {
      var current := FingerprintOf(p);
      if p.name !in fingerprints || fingerprints[p.name] != current {
        clients := map n | n in clients && n != p.name :: clients[n];
        registry := registry[p.name := RegisterArguments(p)];
        fingerprints := fingerprints[p.name := current];
      }
      client := CreateClient(p.name);
    }
  }

  function Created(s: State, name: string): (Option<Client>, State) {
    if name in s.clients then (Some(s.clients[name]), s)
    else if name !in s.registry then (None, s)
    else
      var c := Client(s.registry[name], s.built);
      (Some(c), s.(clients := s.clients[name := c], built := s.built + 1))
  }

  /** One request for a client: the answer, and the state after it. */
  function Answer(s: State, p: OAuthProvider): (Option<Client>, State) {
    var s' :=
      if p.name in s.fingerprints && s.fingerprints[p.name] == FingerprintOf(p) then s
      else s.(clients := map n | n in s.clients && n != p.name :: s.clients[n],
              registry := s.registry[p.name := RegisterArguments(p)],
              fingerprints := s.fingerprints[p.name := FingerprintOf(p)]);
    Created(s', p.name)
  }

  /** The state after a run of requests, each with the provider as it was configured at the time. */
  function After(s: State, requests: seq<OAuthProvider>): State {
    if requests == [] then s
    else Answer(After(s, requests[..|requests| - 1]), requests[|requests| - 1]).1
  }

  const Empty := State(map[], map[], map[], 0)

  /** Under a name and a fingerprint there is one registration. */
  lemma FingerprintDecides(p: OAuthProvider, q: OAuthProvider)
    ensures p.name == q.name && FingerprintOf(p) == FingerprintOf(q) ==> RegisterArguments(p) == RegisterArguments(q)
    ensures !p.IsOidc() && !q.IsOidc() && RegisterArguments(p) == RegisterArguments(q) ==>
      FingerprintOf(p) == FingerprintOf(q)
  {
  }

  /** The registration under a fingerprint and a name, whoever was configured so. */
  function Registered(name: string, f: Fingerprint): Registration {
    RegisterArguments(OAuthProvider(name, f.clientId, f.clientSecret, f.scopes, f.discoveryUrl, f.authorizeUrl,
                                    f.tokenUrl, f.userinfoUrl, f.jwksUrl))
  }

  /** Whatever has a fingerprint was registered and built from just that configuration. */
  ghost predicate IsCurrent(s: State) {
    && s.clients.Keys == s.registry.Keys == s.fingerprints.Keys
    && (forall n :: n in s.fingerprints ==> s.registry[n] == Registered(n, s.fingerprints[n]))
    && (forall n :: n in s.fingerprints ==> s.clients[n].built == s.registry[n])
  }

  lemma AnswerKeepsCurrent(s: State, p: OAuthProvider)
    requires IsCurrent(s)
    ensures IsCurrent(Answer(s, p).1)
    ensures exists serial: nat :: Answer(s, p).0 == Some(Client(RegisterArguments(p), serial))
  {
    hide RegisterArguments, FingerprintOf, Registered;
    RegisteredIs(p);
    var (client, s') := Answer(s, p);
    assert s'.registry[p.name] == RegisterArguments(p);
    assert client == Some(Client(RegisterArguments(p), client.value.serial));
  }

  lemma RegisteredIs(p: OAuthProvider)
    ensures Registered(p.name, FingerprintOf(p)) == RegisterArguments(p)
  {
  }

  /**
   Over any run of requests, with providers edited in between at will, the client returned last was built from the
   arguments its provider has now.
   */
  lemma ClientIsNeverStale(requests: seq<OAuthProvider>, p: OAuthProvider)
    ensures IsCurrent(After(Empty, requests))
    ensures exists serial: nat :: Answer(After(Empty, requests), p).0 == Some(Client(RegisterArguments(p), serial))
  {
    AnswerKeptAfter(requests);
    AnswerKeepsCurrent(After(Empty, requests), p);
  }

  lemma {:induction false} AnswerKeptAfter(requests: seq<OAuthProvider>)
    ensures IsCurrent(After(Empty, requests))
  {
    if requests != [] {
      AnswerKeptAfter(requests[..|requests| - 1]);
      AnswerKeepsCurrent(After(Empty, requests[..|requests| - 1]), requests[|requests| - 1]);
    }
  }

  /** The very same client is returned as long as the requests under its name all carry the same configuration. */
  lemma ClientIsReused(s: State, p: OAuthProvider, later: seq<OAuthProvider>)
    requires IsCurrent(s) && forall q :: q in later && q.name == p.name ==> FingerprintOf(q) == FingerprintOf(p)
    ensures Answer(After(Answer(s, p).1, later), p).0 == Answer(s, p).0
  {
    hide FingerprintOf;
    ReusedIn(s, p, later);
  }

  /** What a request under `name` for a fingerprint would be answered without registering anything. */
  ghost predicate Holds(s: State, name: string, f: Fingerprint, client: Option<Client>) {
    name in s.fingerprints && s.fingerprints[name] == f && name in s.clients && client == Some(s.clients[name])
  }

  lemma RequestHolds(s: State, p: OAuthProvider)
    requires IsCurrent(s)
    ensures Holds(Answer(s, p).1, p.name, FingerprintOf(p), Answer(s, p).0)
  {
    AnswerKeepsCurrent(s, p);
  }

  lemma RequestKeeps(s: State, q: OAuthProvider, name: string, f: Fingerprint, client: Option<Client>)
    requires Holds(s, name, f, client) && (q.name == name ==> FingerprintOf(q) == f)
    ensures Holds(Answer(s, q).1, name, f, client)
  {
    hide FingerprintOf, RegisterArguments;
  }

  lemma {:induction false} ReusedIn(s: State, p: OAuthProvider, later: seq<OAuthProvider>)
    requires IsCurrent(s) && forall q :: q in later && q.name == p.name ==> FingerprintOf(q) == FingerprintOf(p)
    ensures Holds(After(Answer(s, p).1, later), p.name, FingerprintOf(p), Answer(s, p).0)
  {
    hide FingerprintOf, RegisterArguments, Answer, Holds;
    if later == [] { RequestHolds(s, p); }
    else {
      var front, q := later[..|later| - 1], later[|later| - 1];
      ReusedIn(s, p, front);
      assert q in later;
      RequestKeeps(After(Answer(s, p).1, front), q, p.name, FingerprintOf(p), Answer(s, p).0);
    }
  }
}
