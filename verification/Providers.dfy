/** Identity providers from the environment, widened by the enabled rows of the database. */
module Providers {
  import opened PyText
  import opened PyNumbers

  datatype Kind = Ldap | OAuth | Saml | Unknown

  /** One `auth_providers` row; `settings` and `secrets` are what its two JSON blobs decode to. */
  datatype Row = Row(kind: Kind, name: string, enabled: bool, settings: map<string, string>, secrets: map<string,
                     string>)
  {
    /** `setting`: a blank value counts as absent. */
    function Setting(key: string): string { SettingOr(key, "") }

    function SettingOr(key: string, default: string): string {
      if key in settings && Strip(settings[key]) != "" then settings[key] else default
    }
  }

  /** The parts of the three frozen dataclasses that decide whether and how a provider is used. */
  datatype LdapConfig = LdapConfig(enabled: bool, uri: string, baseDn: string, bindDn: string, bindPassword: string,
                                   connectTimeout: int)

  datatype SamlConfig = SamlConfig(enabled: bool, metadataUrl: string, ssoUrl: string, idpCert: string, spCert: string,
                                   spKey: string)

  datatype OAuthProvider = OAuthProvider(name: string, clientId: string, clientSecret: string, scopes: string,
                                         discoveryUrl: string,
                                         authorizeUrl: string, tokenUrl: string, userinfoUrl: string, jwksUrl: string)
  {
    predicate IsOidc() { discoveryUrl != "" }
  }

  datatype AuthConfig = AuthConfig(localEnabled: bool, ldap: LdapConfig, oauth: seq<OAuthProvider>, saml: SamlConfig)
  {
    /** `provider`: the first one under the lower-case form of a name. */
    function Provider(name: string): Option<OAuthProvider> { FirstNamed(oauth, Lower(name)) }
  }

  function FirstNamed(providers: seq<OAuthProvider>, name: string): (p: Option<OAuthProvider>)
    ensures p.Some? ==> p.value in providers && p.value.name == name
    ensures p.None? ==> name !in Names(providers)
  {
    if providers == [] then None
    else if providers[0].name == name then Some(providers[0])
    else FirstNamed(providers[1..], name)
  }

  function Names(providers: seq<OAuthProvider>): set<string> {
    set p | p in providers :: p.name
  }

  /** Reading a secret; `None` stands for `SecretDecryptionError`. */
  type Decrypt = string -> Option<string>

  /** What becomes of a row: `ProviderConfigError`, `SecretDecryptionError`, or an exception nobody catches. */
  datatype Built<+T> = Usable(value: T) | Misconfigured | Undecryptable | Raised

  function Secret(row: Row, key: string, decrypt: Decrypt): Option<string> {
    if key in row.secrets && row.secrets[key] != "" then decrypt(row.secrets[key]) else Some("")
  }

  /** `to_ldap_config`. */
  function ToLdap(row: Row, decrypt: Decrypt): (built: Built<LdapConfig>)
    ensures built.Usable? ==> built.value.enabled
  {
    var uri, baseDn := row.Setting("uri"), row.Setting("base_dn");
    if uri == "" || baseDn == "" then Misconfigured
    else
      match Secret(row, "bind_password", decrypt)
      case None => Undecryptable
      case Some(password) =>
        var timeout := if "connect_timeout" in row.settings then row.settings["connect_timeout"] else "";
        match if timeout == "" then Some(5) else ParseInt(timeout)
        case None => Raised
        case Some(seconds) => Usable(LdapConfig(true, uri, baseDn, row.Setting("bind_dn"), password, seconds))
  }

  /** `to_oauth_provider`. */
  function ToOAuth(row: Row, decrypt: Decrypt): (built: Built<OAuthProvider>)
    ensures built.Usable? ==> built.value.name == row.name
    ensures !built.Raised?
  {
    var discovery, authorize := row.Setting("discovery_url"), row.Setting("authorize_url");
    var clientId := row.Setting("client_id");
    if clientId == "" || (discovery == "" && authorize == "") then Misconfigured
    else if discovery == "" && (row.Setting("token_url") == "" || row.Setting("userinfo_url") == "") then Misconfigured
    else
      match Secret(row, "client_secret", decrypt)
      case None => Undecryptable
      case Some(secret) =>
        var scopes :=
          row.SettingOr("scopes", if discovery != "" then "openid email profile" else "read:user user:email");
        Usable(OAuthProvider(row.name, clientId, secret, scopes, discovery, authorize,
                             row.Setting("token_url"), row.Setting("userinfo_url"), row.Setting("jwks_url")))
  }

  /** `to_saml_config`. */
  function ToSaml(row: Row, decrypt: Decrypt): (built: Built<SamlConfig>)
    ensures built.Usable? ==> built.value.enabled
    ensures !built.Raised?
  {
    var metadata, sso := row.Setting("idp_metadata_url"), row.Setting("idp_sso_url");
    var cert := Secret(row, "idp_x509_cert", decrypt);
    if metadata == "" && sso == "" then Misconfigured
    else if metadata == "" && cert == Some("") then Misconfigured
    else
      var spCert, spKey := Secret(row, "sp_x509_cert", decrypt), Secret(row, "sp_private_key", decrypt);
      if cert.None? || spCert.None? || spKey.None? then Undecryptable
      else Usable(SamlConfig(true, metadata, sso, cert.value, spCert.value, spKey.value))
  }

  datatype Problem = Fine | Shadowed | Broken | Crashes

  /** `provider_problem`: what the administrator is told about a row. */
  function ProviderProblem(env: AuthConfig, row: Row, decrypt: Decrypt): Problem {
    match row.kind
    case Ldap => if env.ldap.enabled then Shadowed else Verdict(ToLdap(row, decrypt))
    case Saml => if env.saml.enabled then Shadowed else Verdict(ToSaml(row, decrypt))
    case OAuth => if env.Provider(row.name).Some? then Shadowed else Verdict(ToOAuth(row, decrypt))
    case Unknown => Broken
  }

  function Verdict<T>(built: Built<T>): Problem {
    match built
    case Usable(_) => Fine
    case Raised => Crashes
    case _ => Broken
  }

  // ----- what is in effect -----

  /** What the database contributes for LDAP: the first enabled row that gives a configuration, or raises. */
  function LdapFrom(rows: seq<Row>, decrypt: Decrypt): (built: Built<LdapConfig>)
    ensures built.Usable? ==> built.value.enabled
  {
    if rows == [] then Misconfigured
    else
      var before, row := LdapFrom(rows[..|rows| - 1], decrypt), rows[|rows| - 1];
      if before.Usable? || before.Raised? then before
      else if row.enabled && row.kind == Ldap then ToLdap(row, decrypt) else Misconfigured
  }

  /** The same for SAML. */
  function SamlFrom(rows: seq<Row>, decrypt: Decrypt): (built: Built<SamlConfig>)
    ensures built.Usable? ==> built.value.enabled
  {
    if rows == [] then Misconfigured
    else
      var before, row := SamlFrom(rows[..|rows| - 1], decrypt), rows[|rows| - 1];
      if before.Usable? then before
      else if row.enabled && row.kind == Saml then ToSaml(row, decrypt) else Misconfigured
  }

  predicate AddsOAuth(row: Row, taken: set<string>, decrypt: Decrypt) {
    row.enabled && row.kind == OAuth && row.name !in taken && ToOAuth(row, decrypt).Usable?
  }

  /** The OAuth providers that the rows add, in their order. */
  function Added(rows: seq<Row>, taken: set<string>, decrypt: Decrypt): seq<OAuthProvider> {
    if rows == [] then []
    else
      var front, row := rows[..|rows| - 1], rows[|rows| - 1];
      Added(front, taken, decrypt) + if AddsOAuth(row, taken, decrypt) then [ToOAuth(row, decrypt).value] else []
  }

  /** Names are unique in the table. */
  predicate HasDistinctNames(rows: seq<Row>) {
    forall i, j :: 0 <= i < j < |rows| ==> rows[i].name != rows[j].name
  }

  predicate IsDistinct(providers: seq<OAuthProvider>) {
    forall i, j :: 0 <= i < j < |providers| ==> providers[i].name != providers[j].name
  }

  /** The environment's providers have distinct lower-case names, or the panel would not have started. */
  predicate IsEnvironment(env: AuthConfig) {
    IsDistinct(env.oauth) && forall p :: p in env.oauth ==> IsLower(p.name)
  }

  /** Every row's say in the merged configuration; `Raised` when the exception of an LDAP row gets out. */
  function Merged(env: AuthConfig, rows: seq<Row>, decrypt: Decrypt): Built<AuthConfig> {
    var ldap := if env.ldap.enabled then Misconfigured else LdapFrom(rows, decrypt);
    var saml := if env.saml.enabled then Misconfigured else SamlFrom(rows, decrypt);
    if ldap.Raised? then Raised
    else
      Usable(AuthConfig(env.localEnabled,
                        if ldap.Usable? then ldap.value else env.ldap,
                        env.oauth + Added(rows, Names(env.oauth), decrypt),
                        if saml.Usable? then saml.value else env.saml))
  }

  lemma NoRows(taken: set<string>, decrypt: Decrypt)
    ensures LdapFrom([], decrypt) == Misconfigured && SamlFrom([], decrypt) == Misconfigured
    ensures Added([], taken, decrypt) == []
  {
  }

  /** What one more row changes. */
  lemma OneMoreRow(rows: seq<Row>, i: nat, taken: set<string>, decrypt: Decrypt)
    requires i < |rows|
    ensures LdapFrom(rows[..i + 1], decrypt) ==
      var before := LdapFrom(rows[..i], decrypt);
      if before.Usable? || before.Raised? then before
      else if rows[i].enabled && rows[i].kind == Ldap then ToLdap(rows[i], decrypt) else Misconfigured
    ensures SamlFrom(rows[..i + 1], decrypt) ==
      var before := SamlFrom(rows[..i], decrypt);
      if before.Usable? then before
      else if rows[i].enabled && rows[i].kind == Saml then ToSaml(rows[i], decrypt) else Misconfigured
    ensures Added(rows[..i + 1], taken, decrypt) ==
      Added(rows[..i], taken, decrypt) +
        if AddsOAuth(rows[i], taken, decrypt) then [ToOAuth(rows[i], decrypt).value] else []
  {
    assert rows[..i + 1][..i] == rows[..i] && rows[..i + 1][i] == rows[i];
  }

  lemma {:induction false} RaisedStays(rows: seq<Row>, k: nat, decrypt: Decrypt)
    requires k <= |rows| && LdapFrom(rows[..k], decrypt).Raised?
    ensures LdapFrom(rows, decrypt).Raised?
    decreases |rows| - k
  {
    if k == |rows| { assert rows[..k] == rows; }
    else {
      assert rows[..k + 1][..k] == rows[..k];
      RaisedStays(rows, k + 1, decrypt);
    }
  }

  /** `effective_auth_config`; `rows` is `None` when the table cannot be read. */
  method EffectiveAuthConfig(env: AuthConfig, rows: Option<seq<Row>>, decrypt: Decrypt)
    returns (config: Built<AuthConfig>)
    requires HasDistinctNames(rows.GetOr([]))
    ensures config == Merged(env, rows.GetOr([]), decrypt)
  {
    hide ToLdap, ToSaml, ToOAuth, LdapFrom, SamlFrom, Added, Names;
    var ldap, saml, oauth := env.ldap, env.saml, env.oauth;
    var taken := Names(oauth);
    var all := rows.GetOr([]);
    NoRows(Names(oauth), decrypt);
    assert all[..0] == [];
    var i := 0;
    while i < |all|
      invariant 0 <= i <= |all|
      invariant Names(env.oauth) <= taken
      invariant forall k :: i <= k < |all| ==> (all[k].name in taken <==> all[k].name in Names(env.oauth))
      invariant ldap ==
        if !env.ldap.enabled && LdapFrom(all[..i], decrypt).Usable? then LdapFrom(all[..i], decrypt).value else env.ldap
      invariant saml ==
        if !env.saml.enabled && SamlFrom(all[..i], decrypt).Usable? then SamlFrom(all[..i], decrypt).value else env.saml
      invariant env.ldap.enabled || !LdapFrom(all[..i], decrypt).Raised?
      invariant oauth == env.oauth + Added(all[..i], Names(env.oauth), decrypt)
      invariant ldap.enabled <==> env.ldap.enabled || LdapFrom(all[..i], decrypt).Usable?
      invariant saml.enabled <==> env.saml.enabled || SamlFrom(all[..i], decrypt).Usable?
    {
      var row := all[i];
      OneMoreRow(all, i, Names(env.oauth), decrypt);
      if row.enabled {
        if row.kind == Ldap {
          if !ldap.enabled {
            var built := ToLdap(row, decrypt);
            if built.Raised? {
              RaisedStays(all, i + 1, decrypt);
              return Raised;
            }
            if built.Usable? { ldap := built.value; }
          }
        } else if row.kind == Saml {
          if !saml.enabled {
            var built := ToSaml(row, decrypt);
            if built.Usable? { saml := built.value; }
          }
        } else if row.kind == OAuth && row.name !in taken {
          var built := ToOAuth(row, decrypt);
          if built.Usable? { oauth, taken := oauth + [built.value], taken + {row.name}; }
        }
      }
      i := i + 1;
    }
    assert all[..i] == all;
    return Usable(AuthConfig(env.localEnabled, ldap, oauth, saml));
  }
}
