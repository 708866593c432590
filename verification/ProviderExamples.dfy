/** Rows on which the administrator's screen and the sign-in page disagree. */
module ProviderExamples {
  import opened PyText
  import opened PyNumbers
  import opened Providers
  import opened ProviderLaws

  /** An environment with one OAuth provider and nothing else. */
  const NO_LDAP := LdapConfig(false, "", "", "", "", 5)
  const NO_SAML := SamlConfig(false, "", "", "", "", "")
  const CORP := OAuthProvider("corp", "id", "", "openid", "https://env", "", "", "", "")
  const ENV := AuthConfig(true, NO_LDAP, [CORP], NO_SAML)

  function LdapRow(name: string, uri: string, timeout: string): Row {
    Row(Ldap, name, true, map["uri" := uri, "base_dn" := "d", "connect_timeout" := timeout], map[])
  }

  lemma LdapRowIs(name: string, uri: string, timeout: string, decrypt: Decrypt)
    requires Strip(uri) != ""
    ensures IsCompleteLdap(LdapRow(name, uri, timeout), decrypt)
    ensures HasBadTimeout(LdapRow(name, uri, timeout)) <==> timeout != "" && ParseInt(timeout).None?
  {
    hide ParseInt, Strip;
    assert Strip("d") == "d" by { assert IsTrimmed("d"); StripTrimmed("d"); }
  }

  lemma StripTrimmed(s: string)
    requires IsTrimmed(s)
    ensures Strip(s) == s
  {
  }

  /** A timeout `n` takes the sign-in page down. */
  lemma BadTimeoutRaises(decrypt: Decrypt)
    ensures Merged(ENV, [LdapRow("l", "u", "n")], decrypt).Raised?
  {
    hide Merged, IsCompleteLdap, HasBadTimeout;
    assert Strip("u") == "u" && Strip("n") == "n" by { StripTrimmed("u"); StripTrimmed("n"); }
    LdapRowIs("l", "u", "n", decrypt);
    assert ParseInt("n").None?;
    RaisesIff(ENV, [LdapRow("l", "u", "n")], decrypt);
    assert [LdapRow("l", "u", "n")][0] == LdapRow("l", "u", "n");
  }

  lemma GoodRowIs(name: string, uri: string, decrypt: Decrypt)
    requires Strip(uri) != ""
    ensures var built := ToLdap(LdapRow(name, uri, ""), decrypt); built.Usable? && built.value.uri == uri
  {
    hide ParseInt, Strip;
    assert Strip("d") == "d" by { StripTrimmed("d"); }
  }

  /** Of two LDAP rows without a problem the second is not in effect. */
  lemma SecondRowIsUnused(decrypt: Decrypt)
    ensures var rows := [LdapRow("k", "u", ""), LdapRow("l", "v", "")];
      && ProviderProblem(ENV, rows[0], decrypt) == ProviderProblem(ENV, rows[1], decrypt) == Fine
      && Merged(ENV, rows, decrypt).Usable? && Merged(ENV, rows, decrypt).value.ldap.uri == "u"
  {
    hide Merged, ToLdap, LdapFrom, Strip;
    var rows := [LdapRow("k", "u", ""), LdapRow("l", "v", "")];
    assert Strip("u") == "u" && Strip("v") == "v" by { StripTrimmed("u"); StripTrimmed("v"); }
    GoodRowIs("k", "u", decrypt);
    GoodRowIs("l", "v", decrypt);
    FineLdap(ENV, rows[0], decrypt);
    FineLdap(ENV, rows[1], decrypt);
    FirstRowDecides(rows, decrypt);
  }

  lemma FirstRowDecides(rows: seq<Row>, decrypt: Decrypt)
    requires rows != [] && IsEnabledFine(ENV, rows[0], Ldap, decrypt) && ToLdap(rows[0], decrypt).Usable?
    ensures Merged(ENV, rows, decrypt).Usable?
    ensures ToLdap(rows[0], decrypt) == Usable(Merged(ENV, rows, decrypt).value.ldap)
  {
    hide Merged, IsEnabledFine, ToLdap, LdapFrom;
    LdapFromIsFirst(ENV, rows, decrypt, LdapFrom(rows, decrypt));
    MergedLdap(ENV, rows, decrypt);
    CompleteRowIs(ENV, rows[0], decrypt);
    assert IsFirstFine(ENV, rows, 0, Ldap, decrypt);
  }

  const MIXED := Row(OAuth, "Corp", true, map["client_id" := "id", "discovery_url" := "https://db"], map[])

  /** A row `Corp` is offered although the environment's `corp` is said to shadow it. */
  lemma MixedCaseRowIsOffered(decrypt: Decrypt)
    ensures var config := Merged(ENV, [MIXED], decrypt);
      config.Usable? && ProviderProblem(ENV, MIXED, decrypt) == Shadowed && IsOffered(ENV, config.value, "Corp")
  {
    hide Merged, ToOAuth, IsOffered, Lower;
    MixedIsUsable(decrypt);
    CorpIsLower();
    NoLdapRows(MIXED, decrypt);
    assert ENV.Provider("Corp") == Some(CORP);
    assert CORP in ENV.oauth && Names(ENV.oauth) == {"corp"};
    assert "Corp"[0] != "corp"[0];
    OfferedIff(ENV, [MIXED], decrypt, Merged(ENV, [MIXED], decrypt).value, MIXED);
  }

  lemma CorpIsLower()
    ensures Lower("Corp") == "corp" && IsLower("corp")
  {
    assert LowerChar('C') == 'c';
  }

  lemma MixedIsUsable(decrypt: Decrypt)
    ensures ToOAuth(MIXED, decrypt).Usable?
  {
    hide ToOAuth, Strip;
    assert Strip("id") == "id" && Strip("https://db") == "https://db" by {
      StripTrimmed("id");
      StripTrimmed("https://db");
    }
    UsableOAuthIff(MIXED, decrypt);
  }

  lemma NoLdapRows(row: Row, decrypt: Decrypt)
    requires row.kind == OAuth
    ensures Merged(ENV, [row], decrypt).Usable?
  {
    hide ToLdap, ToSaml, ToOAuth;
    NoRows(Names(ENV.oauth), decrypt);
    assert [row][..0] == [];
    assert LdapFrom([row], decrypt) == Misconfigured;
  }
}
