/** The rules a proposed record set has to meet before it is sent to the server. */
module RecordRules {
  import opened PyText
  import opened Names
  import opened ReverseNames

  /** What the panel asks of the libraries that parse names, record content and addresses. */
  datatype Parsers = Parsers(
    parsesAsName: string -> bool,
    parsesAs: (string, string) -> bool,
    address: string -> Option<Address>)

  const ADDRESS_TYPES := {"A", "AAAA"}
  const MANAGED_TYPES := {"RRSIG", "NSEC", "NSEC3", "NSEC3PARAM", "DNSKEY", "CDS", "CDNSKEY"}

  /** Types that may stand beside a CNAME. */
  const BESIDE_CNAME := {"CNAME", "RRSIG", "NSEC", "NSEC3"}

  datatype Problem =
    | BadName | NoRecords | BadContent(content: string) | OutsideZone
    | ManySoa | SoaBelowApex | ManyCname | CnameAtApex | CnameBesideOthers | BesideCname

  /** `validate_name`, as far as the panel itself decides it. */
  predicate IsValidName(parsers: Parsers, name: string) {
    Strip(name) != "" && parsers.parsesAsName(Canonical(name))
  }

  /** A record set the form accepts, given the other types already at the name. */
  predicate IsAcceptable(parsers: Parsers, name: string, rtype: string, contents: seq<string>, zone: string,
                         existing: set<string>)
  {
    var n, z := Canonical(name), Canonical(zone);
    && IsValidName(parsers, name)
    && contents != []
    && (forall c :: c in contents ==> parsers.parsesAs(rtype, c))
    && (z != "" ==> InZone(n, z))
    && (rtype == "SOA" ==> |contents| == 1 && (z != "" ==> n == z))
    && (rtype == "CNAME" ==> |contents| == 1 && (z != "" ==> n != z) && existing <= BESIDE_CNAME)
    && (rtype != "SOA" && rtype != "CNAME" ==> "CNAME" !in existing)
  }

  /** When each complaint is due. */
  predicate IsDue(parsers: Parsers, name: string, rtype: string, contents: seq<string>, zone: string,
                  existing: set<string>, p: Problem)
  {
    var n, z := Canonical(name), Canonical(zone);
    match p
    case BadName => !IsValidName(parsers, name)
    case NoRecords => contents == []
    case BadContent(content) => content in contents && !parsers.parsesAs(rtype, content)
    case OutsideZone => n != "" && z != "" && !InZone(n, z)
    case ManySoa => rtype == "SOA" && |contents| > 1
    case SoaBelowApex => rtype == "SOA" && n != "" && z != "" && n != z
    case ManyCname => rtype == "CNAME" && |contents| > 1
    case CnameAtApex => rtype == "CNAME" && n != "" && n == z
    case CnameBesideOthers => rtype == "CNAME" && !(existing <= BESIDE_CNAME)
    case BesideCname => rtype != "CNAME" && rtype != "SOA" && "CNAME" in existing
  }

  predicate IsAboutContent(p: Problem) {
    p.BadName? || p.NoRecords? || p.BadContent?
  }

  method ValidateRRset(parsers: Parsers, name: string, rtype: string, contents: seq<string>, zone: string,
                       existing: set<string>)
    returns (problems: seq<Problem>)
    ensures forall p :: p in problems <==> IsDue(parsers, name, rtype, contents, zone, existing, p)
    ensures problems == [] <==> IsAcceptable(parsers, name, rtype, contents, zone, existing)
  {
    hide Canonical, IsValidName, InZone, IsAcceptable;
    problems := [];
    if !IsValidName(parsers, name) { problems := problems + [BadName]; }
    if contents == [] { problems := problems + [NoRecords]; }
    for k := 0 to |contents|
      invariant forall p :: p in problems <==>
        if p.BadContent? then p.content in contents[..k] && !parsers.parsesAs(rtype, p.content)
        else (p == BadName && !IsValidName(parsers, name)) || (p == NoRecords && contents == [])
    {
      assert contents[..k + 1] == contents[..k] + [contents[k]];
      if !parsers.parsesAs(rtype, contents[k]) { problems := problems + [BadContent(contents[k])]; }
    }
    assert contents[..|contents|] == contents;
    assert forall p :: p in problems <==> IsAboutContent(p) && IsDue(parsers, name, rtype, contents, zone, existing, p);
    var rest := ValidatePlace(parsers, name, rtype, contents, zone, existing);
    problems := problems + rest;
    NoneDueIff(parsers, name, rtype, contents, zone, existing);
    EmptyIff(problems);
  }

  /** The second half: where the set stands and what stands beside it. */
  method ValidatePlace(parsers: Parsers, name: string, rtype: string, contents: seq<string>, zone: string,
                       existing: set<string>)
    returns (problems: seq<Problem>)
    ensures forall p :: p in problems <==>
      !IsAboutContent(p) && IsDue(parsers, name, rtype, contents, zone, existing, p)
  {
    hide IsValidName, EndsWith, Canonical;
    var nameC, zoneC := Canonical(name), Canonical(zone);
    problems := [];
    if nameC != "" && zoneC != "" && nameC != zoneC && !EndsWith(nameC, "." + zoneC) { problems := [OutsideZone]; }
    if rtype == "SOA" {
      if |contents| > 1 { problems := problems + [ManySoa]; }
      if nameC != "" && zoneC != "" && nameC != zoneC { problems := problems + [SoaBelowApex]; }
    }
    if rtype == "CNAME" {
      if |contents| > 1 { problems := problems + [ManyCname]; }
      if nameC != "" && zoneC != "" && nameC == zoneC { problems := problems + [CnameAtApex]; }
      if existing - BESIDE_CNAME != {} { problems := problems + [CnameBesideOthers]; }
    } else if "CNAME" in existing && rtype != "SOA" {
      problems := problems + [BesideCname];
    }
  }

  lemma ValidIsNamed(parsers: Parsers, name: string)
    ensures IsValidName(parsers, name) ==> Canonical(name) != ""
  {
  }

  lemma EmptyIff(problems: seq<Problem>)
    ensures problems == [] <==> forall p :: p !in problems
  {
    if problems != [] { assert problems[0] in problems; }
  }

  /** A record set is acceptable exactly when no complaint is due. */
  lemma NoneDueIff(parsers: Parsers, name: string, rtype: string, contents: seq<string>, zone: string,
                   existing: set<string>)
    ensures IsAcceptable(parsers, name, rtype, contents, zone, existing) <==>
      forall p :: !IsDue(parsers, name, rtype, contents, zone, existing, p)
  {
    hide Canonical, InZone, IsValidName;
    ValidIsNamed(parsers, name);
    if forall p :: !IsDue(parsers, name, rtype, contents, zone, existing, p) {
      assert !IsDue(parsers, name, rtype, contents, zone, existing, BadName);
      assert !IsDue(parsers, name, rtype, contents, zone, existing, NoRecords);
      assert forall c :: c in contents ==> !IsDue(parsers, name, rtype, contents, zone, existing, BadContent(c));
      assert !IsDue(parsers, name, rtype, contents, zone, existing, OutsideZone);
      assert !IsDue(parsers, name, rtype, contents, zone, existing, ManySoa);
      assert !IsDue(parsers, name, rtype, contents, zone, existing, SoaBelowApex);
      assert !IsDue(parsers, name, rtype, contents, zone, existing, ManyCname);
      assert !IsDue(parsers, name, rtype, contents, zone, existing, CnameAtApex);
      assert !IsDue(parsers, name, rtype, contents, zone, existing, CnameBesideOthers);
      assert !IsDue(parsers, name, rtype, contents, zone, existing, BesideCname);
    }
  }
}
