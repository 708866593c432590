/** Which setting of a row goes where, up to the client that signs people in. */
module ProviderEffects {
  import opened PyText
  import opened PyNumbers
  import opened Providers
  import opened ProviderLaws
  import opened OAuthClients

  /** A setting of a row; one that is missing or blank counts as not given. */
  predicate IsGiven(row: Row, key: string, value: string) {
    key in row.settings && row.settings[key] == value && Strip(value) != ""
  }

  predicate IsLeftOut(row: Row, key: string) {
    key !in row.settings || Strip(row.settings[key]) == ""
  }

  /** `value` is the setting, or the default where none is given. */
  predicate Says(row: Row, key: string, value: string, default: string) {
    IsGiven(row, key, value) || (IsLeftOut(row, key) && value == default)
  }

  /** `value` is what the row's secret decrypts to, and blank if it has none. */
  predicate Hides(row: Row, key: string, value: string, decrypt: Decrypt) {
    if key in row.secrets && row.secrets[key] != "" then decrypt(row.secrets[key]) == Some(value) else value == ""
  }

  lemma SettingSays(row: Row, key: string, default: string)
    ensures Says(row, key, row.SettingOr(key, default), default) && Says(row, key, row.Setting(key), "")
    ensures row.Setting(key) == "" <==> IsLeftOut(row, key)
  {
    hide Strip;
    BlankIsBlank();
  }

  lemma BlankIsBlank()
    ensures Strip("") == ""
  {
  }

  /** Every field of a usable OAuth provider is the row's own. The scopes have a default, which depends on whether
      there is a discovery URL. */
  lemma OAuthRowSays(row: Row, decrypt: Decrypt, p: OAuthProvider)
    requires ToOAuth(row, decrypt) == Usable(p)
    ensures p.name == row.name
    ensures Says(row, "client_id", p.clientId, "") && Hides(row, "client_secret", p.clientSecret, decrypt)
    ensures Says(row, "discovery_url", p.discoveryUrl, "") && Says(row, "authorize_url", p.authorizeUrl, "")
    ensures Says(row, "token_url", p.tokenUrl, "") && Says(row, "userinfo_url", p.userinfoUrl, "")
    ensures Says(row, "jwks_url", p.jwksUrl, "")
    ensures Says(row, "scopes", p.scopes,
                 if IsLeftOut(row, "discovery_url") then "read:user user:email" else "openid email profile")
  {
    hide Row.Setting, Row.SettingOr, Says, IsLeftOut;
    SettingSays(row, "client_id", "");
    SettingSays(row, "discovery_url", "");
    SettingSays(row, "authorize_url", "");
    SettingSays(row, "token_url", "");
    SettingSays(row, "userinfo_url", "");
    SettingSays(row, "jwks_url", "");
    SettingSays(row, "scopes", "read:user user:email");
    SettingSays(row, "scopes", "openid email profile");
  }

  /** So are those of an LDAP server, whose timeout is 5 seconds if none is given. */
  lemma LdapRowSays(row: Row, decrypt: Decrypt, c: LdapConfig)
    requires ToLdap(row, decrypt) == Usable(c)
    ensures c.enabled && Says(row, "uri", c.uri, "") && Says(row, "base_dn", c.baseDn, "")
    ensures Says(row, "bind_dn", c.bindDn, "") && Hides(row, "bind_password", c.bindPassword, decrypt)
    ensures if "connect_timeout" in row.settings && row.settings["connect_timeout"] != ""
            then ParseInt(row.settings["connect_timeout"]) == Some(c.connectTimeout) else c.connectTimeout == 5
  {
    hide Row.Setting, Row.SettingOr, Says, IsLeftOut, ParseInt;
    SettingSays(row, "uri", "");
    SettingSays(row, "base_dn", "");
    SettingSays(row, "bind_dn", "");
  }

  /** And those of a SAML provider. */
  lemma SamlRowSays(row: Row, decrypt: Decrypt, c: SamlConfig)
    requires ToSaml(row, decrypt) == Usable(c)
    ensures c.enabled && Says(row, "idp_metadata_url", c.metadataUrl, "") && Says(row, "idp_sso_url", c.ssoUrl, "")
    ensures Hides(row, "idp_x509_cert", c.idpCert, decrypt) && Hides(row, "sp_x509_cert", c.spCert, decrypt)
    ensures Hides(row, "sp_private_key", c.spKey, decrypt)
  {
    hide Row.Setting, Row.SettingOr, Says, IsLeftOut;
    SettingSays(row, "idp_metadata_url", "");
    SettingSays(row, "idp_sso_url", "");
  }

  // ----- the merged configuration -----

  /** Rows are offered in their order, behind the environment's providers. */
  lemma {:induction false} OfferedInOrder(rows: seq<Row>, taken: set<string>, decrypt: Decrypt, i: nat, j: nat)
    returns (k: nat, l: nat)
    requires i < j < |rows| && AddsOAuth(rows[i], taken, decrypt) && AddsOAuth(rows[j], taken, decrypt)
    ensures k < l < |Added(rows, taken, decrypt)|
    ensures ToOAuth(rows[i], decrypt) == Usable(Added(rows, taken, decrypt)[k])
    ensures ToOAuth(rows[j], decrypt) == Usable(Added(rows, taken, decrypt)[l])
  {
    hide ToOAuth;
    var front := rows[..|rows| - 1];
    if j < |rows| - 1 {
      k, l := OfferedInOrder(front, taken, decrypt, i, j);
    } else {
      AddedAre(front, taken, decrypt, ToOAuth(rows[i], decrypt).value);
      assert rows[i] == front[i] && front[i] in front;
      var before := Added(front, taken, decrypt);
      k :| 0 <= k < |before| && before[k] == ToOAuth(rows[i], decrypt).value;
      l := |before|;
    }
  }

  /** The rows never decide whether local accounts may sign in, and a server of the environment's is never replaced. */
  lemma EnvironmentStands(env: AuthConfig, rows: seq<Row>, decrypt: Decrypt, config: AuthConfig)
    requires Merged(env, rows, decrypt) == Usable(config)
    ensures config.localEnabled == env.localEnabled
    ensures env.ldap.enabled ==> config.ldap == env.ldap
    ensures env.saml.enabled ==> config.saml == env.saml
  {
    hide LdapFrom, SamlFrom, Added;
  }

  // ----- the client -----

  /** The client has these credentials and scopes. */
  predicate HasCredentials(built: Registration, name: string, id: string, secret: string, scope: string) {
    built.name == name && built.clientId == id && built.clientSecret == secret && built.scope == scope
  }

  /**
   After any run of requests, the client for a row's provider is built from the row's settings: by its discovery URL if
   it has one, and otherwise with its authorize URL for authorisation, its token URL for tokens, its userinfo URL as the
   base of the API, and its key set if it has one.
   */
  lemma ClientSaysRow(requests: seq<OAuthProvider>, row: Row, decrypt: Decrypt, p: OAuthProvider)
    requires ToOAuth(row, decrypt) == Usable(p)
    ensures var client := Answer(After(Empty, requests), p).0;
      && client.Some?
      && var b := client.value.built;
         && HasCredentials(b, row.name, p.clientId, p.clientSecret, p.scopes)
         && (b.Discovered? <==> !IsLeftOut(row, "discovery_url"))
         && (b.Discovered? ==> IsGiven(row, "discovery_url", b.metadataUrl))
         && (b.Explicit? ==>
               && IsGiven(row, "authorize_url", b.authorizeUrl) && IsGiven(row, "token_url", b.tokenUrl)
               && IsGiven(row, "userinfo_url", b.apiBaseUrl)
               && if b.jwksUri.Some? then IsGiven(row, "jwks_url", b.jwksUri.value) else IsLeftOut(row, "jwks_url"))
  {
    hide ToOAuth, Answer, After, Strip, Hides;
    ClientIsNeverStale(requests, p);
    OAuthRowSays(row, decrypt, p);
    RowHasEndpoints(row, decrypt, p);
    BlankIsBlank();
  }

  lemma RowHasEndpoints(row: Row, decrypt: Decrypt, p: OAuthProvider)
    requires ToOAuth(row, decrypt) == Usable(p)
    ensures p.discoveryUrl != "" || (p.authorizeUrl != "" && p.tokenUrl != "" && p.userinfoUrl != "")
  {
    hide Row.Setting, Row.SettingOr, Secret;
  }
}
