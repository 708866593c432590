/** What the merged provider configuration guarantees, and where the administrator's screen disagrees with it. */
module ProviderLaws {
  import opened PyText
  import opened PyNumbers
  import opened Providers

  /** The panel came up with `env`, the table holds `rows`, and `config` is what sign-in uses. */
  ghost predicate IsServing(env: AuthConfig, rows: seq<Row>, decrypt: Decrypt, config: AuthConfig) {
    IsEnvironment(env) && HasDistinctNames(rows) && Merged(env, rows, decrypt) == Usable(config)
  }

  /** A provider beyond the environment's own carries the row's name. */
  ghost predicate IsOffered(env: AuthConfig, config: AuthConfig, name: string) {
    exists k :: |env.oauth| <= k < |config.oauth| && config.oauth[k].name == name
  }

  // ----- the OAuth providers -----

  lemma {:induction false} AddedAre(rows: seq<Row>, taken: set<string>, decrypt: Decrypt, p: OAuthProvider)
    ensures p in Added(rows, taken, decrypt) <==>
      exists row :: row in rows && AddsOAuth(row, taken, decrypt) && ToOAuth(row, decrypt) == Usable(p)
  {
    hide ToOAuth;
    if rows != [] {
      var front, row := rows[..|rows| - 1], rows[|rows| - 1];
      AddedAre(front, taken, decrypt, p);
      assert rows == front + [row];
    }
  }

  lemma {:induction false} AddedAreDistinct(rows: seq<Row>, taken: set<string>, decrypt: Decrypt)
    requires HasDistinctNames(rows)
    ensures IsDistinct(Added(rows, taken, decrypt))
  {
    hide ToOAuth;
    if rows != [] {
      var front, row := rows[..|rows| - 1], rows[|rows| - 1];
      AddedAreDistinct(front, taken, decrypt);
      var before := Added(front, taken, decrypt);
      forall i | 0 <= i < |before| ensures before[i].name != row.name {
        AddedAre(front, taken, decrypt, before[i]);
      }
    }
  }

  /** An enabled row stands behind the provider. */
  ghost predicate IsFromRow(rows: seq<Row>, decrypt: Decrypt, p: OAuthProvider) {
    exists row :: row in rows && row.enabled && row.kind == OAuth && ToOAuth(row, decrypt) == Usable(p)
  }

  /** The environment's providers come first and unchanged, every name occurs once, and nothing else is let in. */
  lemma EnvironmentComesFirst(env: AuthConfig, rows: seq<Row>, decrypt: Decrypt, config: AuthConfig)
    requires IsServing(env, rows, decrypt, config)
    ensures env.oauth <= config.oauth && IsDistinct(config.oauth)
    ensures forall k :: |env.oauth| <= k < |config.oauth| ==> IsFromRow(rows, decrypt, config.oauth[k])
  {
    hide ToOAuth, IsLower;
    var added := Added(rows, Names(env.oauth), decrypt);
    AddedAreDistinct(rows, Names(env.oauth), decrypt);
    forall k | |env.oauth| <= k < |config.oauth|
      ensures config.oauth[k].name !in Names(env.oauth)
      ensures IsFromRow(rows, decrypt, config.oauth[k])
    {
      AddedAre(rows, Names(env.oauth), decrypt, config.oauth[k]);
      assert config.oauth[k] == added[k - |env.oauth|];
    }
    forall i, j | 0 <= i < j < |config.oauth| ensures config.oauth[i].name != config.oauth[j].name {
      if i < |env.oauth| <= j {
        assert env.oauth[i] in env.oauth && env.oauth[i].name in Names(env.oauth);
      } else if |env.oauth| <= i {
        assert config.oauth[i] == added[i - |env.oauth|] && config.oauth[j] == added[j - |env.oauth|];
      }
    }
  }

  /** A row is offered exactly when it is enabled, complete and not under a name of the environment's. */
  lemma OfferedIff(env: AuthConfig, rows: seq<Row>, decrypt: Decrypt, config: AuthConfig, row: Row)
    requires IsServing(env, rows, decrypt, config) && row in rows && row.kind == OAuth
    ensures IsOffered(env, config, row.name) <==>
      row.enabled && ToOAuth(row, decrypt).Usable? && row.name !in Names(env.oauth)
    ensures IsOffered(env, config, row.name) ==> ToOAuth(row, decrypt).value in config.oauth
  {
    hide ToOAuth, IsLower;
    var added := Added(rows, Names(env.oauth), decrypt);
    if IsOffered(env, config, row.name) {
      var k :| |env.oauth| <= k < |config.oauth| && config.oauth[k].name == row.name;
      AddedAre(rows, Names(env.oauth), decrypt, config.oauth[k]);
      assert config.oauth[k] == added[k - |env.oauth|];
      var source :| source in rows && AddsOAuth(source, Names(env.oauth), decrypt)
                    && ToOAuth(source, decrypt) == Usable(config.oauth[k]);
      assert source == row;
    }
    if AddsOAuth(row, Names(env.oauth), decrypt) {
      var p := ToOAuth(row, decrypt).value;
      AddedAre(rows, Names(env.oauth), decrypt, p);
      var j :| 0 <= j < |added| && added[j] == p;
      assert config.oauth[|env.oauth| + j] == p;
    }
  }

  lemma ProviderKnown(config: AuthConfig, name: string)
    ensures config.Provider(name).Some? <==> Lower(name) in Names(config.oauth)
  {
    var p := config.Provider(name);
    if p.Some? { assert p.value.name in Names(config.oauth); }
  }

  /** A lower-case row is offered exactly when it is enabled and no problem is reported for it. */
  lemma ReportIsTrue(env: AuthConfig, rows: seq<Row>, decrypt: Decrypt, config: AuthConfig, row: Row)
    requires IsServing(env, rows, decrypt, config) && row in rows && row.kind == OAuth && IsLower(row.name)
    ensures IsOffered(env, config, row.name) <==> row.enabled && ProviderProblem(env, row, decrypt) == Fine
  {
    hide ToOAuth;
    OfferedIff(env, rows, decrypt, config, row);
    ProviderKnown(env, row.name);
  }

  /** A row is offered although it is reported as shadowed exactly when upper case keeps it apart from the
      environment's provider. No form stores such a name; a hand-edited table may hold one. */
  lemma OfferedThoughShadowedIff(env: AuthConfig, rows: seq<Row>, decrypt: Decrypt, config: AuthConfig, row: Row)
    requires IsServing(env, rows, decrypt, config) && row in rows && row.kind == OAuth && row.enabled
    requires ToOAuth(row, decrypt).Usable?
    ensures IsOffered(env, config, row.name) && ProviderProblem(env, row, decrypt) != Fine <==>
      (!IsLower(row.name) && Lower(row.name) in Names(env.oauth))
  {
    hide ToOAuth;
    OfferedIff(env, rows, decrypt, config, row);
    ProviderKnown(env, row.name);
    if row.name in Names(env.oauth) {
      var p :| p in env.oauth && p.name == row.name;
      assert IsLower(p.name);
    }
  }

  lemma FirstNamedIs(providers: seq<OAuthProvider>, p: OAuthProvider)
    requires IsDistinct(providers) && p in providers
    ensures FirstNamed(providers, p.name) == Some(p)
  {
    var q := FirstNamed(providers, p.name);
    if q.Some? {
      var i :| 0 <= i < |providers| && providers[i] == p;
      var j :| 0 <= j < |providers| && providers[j] == q.value;
    }
  }

  /** A sign-in under the name of an offered row reaches that row's provider exactly when the name is lower-case. */
  lemma SignInReachesRowIff(env: AuthConfig, rows: seq<Row>, decrypt: Decrypt, config: AuthConfig, row: Row)
    requires IsServing(env, rows, decrypt, config) && row in rows && row.kind == OAuth
    requires IsOffered(env, config, row.name)
    ensures ToOAuth(row, decrypt).Usable?
    ensures config.Provider(row.name) == Some(ToOAuth(row, decrypt).value) <==> IsLower(row.name)
  {
    hide ToOAuth;
    OfferedIff(env, rows, decrypt, config, row);
    EnvironmentComesFirst(env, rows, decrypt, config);
    FirstNamedIs(config.oauth, ToOAuth(row, decrypt).value);
  }

  /** No row can change whom a sign-in reaches under a name of the environment's. */
  lemma EnvironmentWins(env: AuthConfig, rows: seq<Row>, decrypt: Decrypt, config: AuthConfig, name: string)
    requires IsServing(env, rows, decrypt, config) && env.Provider(name).Some?
    ensures config.Provider(name) == env.Provider(name)
  {
    var p := env.Provider(name).value;
    EnvironmentComesFirst(env, rows, decrypt, config);
    assert p in config.oauth;
    FirstNamedIs(config.oauth, p);
  }

  // ----- LDAP and SAML -----

  /** Row `k` is the first enabled row of its kind for which no problem is reported. */
  ghost predicate IsFirstFine(env: AuthConfig, rows: seq<Row>, k: int, kind: Kind, decrypt: Decrypt) {
    && 0 <= k < |rows| && IsEnabledFine(env, rows[k], kind, decrypt)
    && forall i :: 0 <= i < k ==> !IsEnabledFine(env, rows[i], kind, decrypt)
  }

  ghost predicate IsFineAt(env: AuthConfig, rows: seq<Row>, m: int, kind: Kind, decrypt: Decrypt) {
    0 <= m < |rows| && IsEnabledFine(env, rows[m], kind, decrypt)
  }

  ghost predicate IsEnabledFine(env: AuthConfig, row: Row, kind: Kind, decrypt: Decrypt) {
    row.enabled && row.kind == kind && ProviderProblem(env, row, decrypt) == Fine
  }

  lemma FineLdap(env: AuthConfig, row: Row, decrypt: Decrypt)
    ensures IsEnabledFine(env, row, Ldap, decrypt) <==>
      row.enabled && row.kind == Ldap && !env.ldap.enabled && ToLdap(row, decrypt).Usable?
  {
    hide ToLdap, ToSaml, ToOAuth;
  }

  lemma FineSaml(env: AuthConfig, row: Row, decrypt: Decrypt)
    ensures IsEnabledFine(env, row, Saml, decrypt) <==>
      row.enabled && row.kind == Saml && !env.saml.enabled && ToSaml(row, decrypt).Usable?
  {
    hide ToLdap, ToSaml, ToOAuth;
  }

  /** Row `k` is the first enabled LDAP row that is fine or raises, and it raises. */
  ghost predicate IsFirstCrash(env: AuthConfig, rows: seq<Row>, k: int, decrypt: Decrypt) {
    && 0 <= k < |rows| && IsEnabledCrash(rows[k], decrypt)
    && forall i :: 0 <= i < k ==> !IsEnabledCrash(rows[i], decrypt) && !IsEnabledFine(env, rows[i], Ldap, decrypt)
  }

  ghost predicate IsEnabledCrash(row: Row, decrypt: Decrypt) {
    row.enabled && row.kind == Ldap && ToLdap(row, decrypt).Raised?
  }

  ghost predicate NoCrashTo(rows: seq<Row>, k: int, decrypt: Decrypt) {
    forall i :: 0 <= i <= k < |rows| ==> !IsEnabledCrash(rows[i], decrypt)
  }

  lemma {:induction false} LdapFromIsFirst(env: AuthConfig, rows: seq<Row>, decrypt: Decrypt, built: Built<LdapConfig>)
    requires built == LdapFrom(rows, decrypt) && !env.ldap.enabled
    ensures built.Usable? ==>
      exists k ::
        IsFirstFine(env, rows, k, Ldap, decrypt) && ToLdap(rows[k], decrypt) == built && NoCrashTo(rows, k, decrypt)
    ensures built.Raised? ==> exists k :: IsFirstCrash(env, rows, k, decrypt)
    ensures !built.Usable? && !built.Raised? ==> forall k :: 0 <= k < |rows| ==>
      !IsEnabledFine(env, rows[k], Ldap, decrypt)
    ensures !built.Usable? && !built.Raised? ==> forall k :: 0 <= k < |rows| ==> !IsEnabledCrash(rows[k], decrypt)
  {
    hide ToLdap, IsEnabledFine;
    if rows != [] {
      var last := |rows| - 1;
      var before := LdapFrom(rows[..last], decrypt);
      LdapFromIsFirst(env, rows[..last], decrypt, before);
      FineLdap(env, rows[last], decrypt);
      if before.Usable? {
        var k :| IsFirstFine(env, rows[..last], k, Ldap, decrypt) && ToLdap(rows[..last][k], decrypt) == before
                 && NoCrashTo(rows[..last], k, decrypt);
        assert IsFirstFine(env, rows, k, Ldap, decrypt) && NoCrashTo(rows, k, decrypt);
      } else if before.Raised? {
        var k :| IsFirstCrash(env, rows[..last], k, decrypt);
        assert IsFirstCrash(env, rows, k, decrypt);
      } else if built.Usable? {
        assert IsFirstFine(env, rows, last, Ldap, decrypt) && NoCrashTo(rows, last, decrypt);
      } else if built.Raised? {
        assert IsFirstCrash(env, rows, last, decrypt);
      }
    }
  }

  /**
   Without an LDAP server of its own, the environment gets that of the first enabled row without a problem, and none
   if every row has one. Another row without a problem is in effect only if it says the very same, though nothing is
   reported for it.
   */
  lemma LdapInEffect(env: AuthConfig, rows: seq<Row>, decrypt: Decrypt, config: AuthConfig)
    requires Merged(env, rows, decrypt) == Usable(config)
    ensures (forall row :: row in rows ==> !IsEnabledFine(env, row, Ldap, decrypt)) ==> config.ldap == env.ldap
    ensures forall k :: IsFirstFine(env, rows, k, Ldap, decrypt) ==> ToLdap(rows[k], decrypt) == Usable(config.ldap)
    ensures forall k, m | IsFirstFine(env, rows, k, Ldap, decrypt) && IsFineAt(env, rows, m, Ldap, decrypt) ::
      (ToLdap(rows[m], decrypt) == Usable(config.ldap) <==> ToLdap(rows[m], decrypt) == ToLdap(rows[k], decrypt))
  {
    hide ToLdap, IsEnabledFine, LdapFrom, Merged;
    var built := LdapFrom(rows, decrypt);
    MergedLdap(env, rows, decrypt);
    if env.ldap.enabled {
      forall row ensures !IsEnabledFine(env, row, Ldap, decrypt) { FineLdap(env, row, decrypt); }
    } else {
      LdapFromIsFirst(env, rows, decrypt, built);
    }
  }

  lemma MergedLdap(env: AuthConfig, rows: seq<Row>, decrypt: Decrypt)
    ensures var built := LdapFrom(rows, decrypt);
      match Merged(env, rows, decrypt)
      case Usable(config) =>
        && config.ldap == (if !env.ldap.enabled && built.Usable? then built.value else env.ldap)
        && (env.ldap.enabled || !built.Raised?)
      case Raised => !env.ldap.enabled && built.Raised?
      case _ => false
  {
    hide LdapFrom, SamlFrom, Added;
  }

  lemma {:induction false} SamlFromIsFirst(env: AuthConfig, rows: seq<Row>, decrypt: Decrypt, built: Built<SamlConfig>)
    requires built == SamlFrom(rows, decrypt) && !env.saml.enabled
    ensures built.Usable? ==> exists k :: IsFirstFine(env, rows, k, Saml, decrypt) && ToSaml(rows[k], decrypt) == built
    ensures !built.Usable? ==> forall k :: 0 <= k < |rows| ==> !IsEnabledFine(env, rows[k], Saml, decrypt)
  {
    hide ToSaml, IsEnabledFine;
    if rows != [] {
      var last := |rows| - 1;
      var before := SamlFrom(rows[..last], decrypt);
      SamlFromIsFirst(env, rows[..last], decrypt, before);
      FineSaml(env, rows[last], decrypt);
      if before.Usable? {
        var k :| IsFirstFine(env, rows[..last], k, Saml, decrypt) && ToSaml(rows[..last][k], decrypt) == before;
        assert IsFirstFine(env, rows, k, Saml, decrypt);
      } else if built.Usable? {
        assert IsFirstFine(env, rows, last, Saml, decrypt);
      }
    }
  }

  /** The same for SAML. */
  lemma SamlInEffect(env: AuthConfig, rows: seq<Row>, decrypt: Decrypt, config: AuthConfig)
    requires Merged(env, rows, decrypt) == Usable(config)
    ensures (forall row :: row in rows ==> !IsEnabledFine(env, row, Saml, decrypt)) ==> config.saml == env.saml
    ensures forall k :: IsFirstFine(env, rows, k, Saml, decrypt) ==> ToSaml(rows[k], decrypt) == Usable(config.saml)
    ensures forall k, m | IsFirstFine(env, rows, k, Saml, decrypt) && IsFineAt(env, rows, m, Saml, decrypt) ::
      (ToSaml(rows[m], decrypt) == Usable(config.saml) <==> ToSaml(rows[m], decrypt) == ToSaml(rows[k], decrypt))
  {
    hide ToSaml, IsEnabledFine, SamlFrom, LdapFrom;
    var built := SamlFrom(rows, decrypt);
    if env.saml.enabled {
      forall row ensures !IsEnabledFine(env, row, Saml, decrypt) { FineSaml(env, row, decrypt); }
    } else {
      SamlFromIsFirst(env, rows, decrypt, built);
    }
  }

  /** The row has all that an LDAP server needs, its timeout aside. */
  predicate IsCompleteLdap(row: Row, decrypt: Decrypt) {
    && row.enabled && row.kind == Ldap
    && row.Setting("uri") != "" && row.Setting("base_dn") != "" && Secret(row, "bind_password", decrypt).Some?
  }

  /** The row has a timeout that is not a number. No form writes one; a hand-edited row may hold it. */
  predicate HasBadTimeout(row: Row) {
    && "connect_timeout" in row.settings && row.settings["connect_timeout"] != ""
    && ParseInt(row.settings["connect_timeout"]).None?
  }

  /** What becomes of an enabled LDAP row is settled by those two. */
  lemma CompleteRowIs(env: AuthConfig, row: Row, decrypt: Decrypt)
    ensures IsEnabledCrash(row, decrypt) <==> IsCompleteLdap(row, decrypt) && HasBadTimeout(row)
    ensures IsEnabledFine(env, row, Ldap, decrypt) <==>
      !env.ldap.enabled && IsCompleteLdap(row, decrypt) && !HasBadTimeout(row)
  {
    hide ToSaml, ToOAuth, ParseInt;
  }

  /** One row takes the sign-in page down exactly when the environment names no LDAP server and the first complete LDAP
      row has a timeout that is not a number. */
  lemma RaisesIff(env: AuthConfig, rows: seq<Row>, decrypt: Decrypt)
    ensures Merged(env, rows, decrypt).Raised? <==>
      (!env.ldap.enabled && exists k :: 0 <= k < |rows| && IsCompleteLdap(rows[k], decrypt) && HasBadTimeout(rows[k])
                                        && forall i :: 0 <= i < k ==> !IsCompleteLdap(rows[i], decrypt))
  {
    hide LdapFrom, Merged, ToLdap, IsEnabledFine, IsEnabledCrash, IsCompleteLdap, HasBadTimeout;
    MergedLdap(env, rows, decrypt);
    if !env.ldap.enabled {
      LdapFromIsFirst(env, rows, decrypt, LdapFrom(rows, decrypt));
      forall row ensures IsEnabledCrash(row, decrypt) <==> IsCompleteLdap(row, decrypt) && HasBadTimeout(row)
        ensures IsEnabledFine(env, row, Ldap, decrypt) <==> IsCompleteLdap(row, decrypt) && !HasBadTimeout(row)
      {
        CompleteRowIs(env, row, decrypt);
      }
    }
  }

  /** When an OAuth row is usable. */
  lemma UsableOAuthIff(row: Row, decrypt: Decrypt)
    ensures ToOAuth(row, decrypt).Usable? <==>
      && row.Setting("client_id") != "" && Secret(row, "client_secret", decrypt).Some?
      && (row.Setting("discovery_url") != "" ||
          (row.Setting("authorize_url") != "" && row.Setting("token_url") != "" && row.Setting("userinfo_url") != ""))
  {
  }

  /** When a SAML row is usable. */
  lemma UsableSamlIff(row: Row, decrypt: Decrypt)
    ensures ToSaml(row, decrypt).Usable? <==>
      && (forall key :: key in {"idp_x509_cert", "sp_x509_cert", "sp_private_key"} ==> Secret(row, key, decrypt).Some?)
      && (row.Setting("idp_metadata_url") != "" ||
          (row.Setting("idp_sso_url") != "" && Secret(row, "idp_x509_cert", decrypt) != Some("")))
  {
  }
}
