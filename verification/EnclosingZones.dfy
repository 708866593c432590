/** Which of several zones a name belongs to. */
module EnclosingZones {
  import opened PyText
  import opened Names
  import opened ReverseNames

  predicate Matches(target: string, zone: string) {
    zone != "" && InZone(target, zone)
  }

  function Canonicals(names: seq<string>): set<string> {
    set n | n in names :: Canonical(n)
  }

  /** `best` is the longest of `zones` that `target` lies in, if it lies in any. */
  predicate IsEnclosing(target: string, zones: set<string>, best: Option<string>) {
    match best
    case None => forall z :: z in zones ==> !Matches(target, z)
    case Some(b) => b in zones && Matches(target, b) && forall z :: z in zones && Matches(target, z) ==> |z| <= |b|
  }

  /** Two matching zones of one length are the same suffix, so there is one answer whatever the order. */
  lemma EnclosingUnique(target: string, zones: set<string>, a: Option<string>, b: Option<string>)
    requires IsEnclosing(target, zones, a) && IsEnclosing(target, zones, b)
    ensures a == b
  {
    if a.Some? && b.Some? {
      var x, y := a.value, b.value;
      assert |x| == |y|;
      assert target[|target| - |x|..] == x by { SuffixOf(target, x); }
      assert target[|target| - |y|..] == y by { SuffixOf(target, y); }
    }
  }

  lemma SuffixOf(target: string, zone: string)
    requires InZone(target, zone)
    ensures EndsWith(target, zone)
  {
    if target != zone {
      var z := "." + zone;
      assert target[|target| - |z|..][1..] == z[1..] == zone;
    }
  }

  lemma EnclosingExists(target: string, zones: set<string>)
    ensures exists best :: IsEnclosing(target, zones, best)
    decreases |zones|
  {
    if z :| z in zones && Matches(target, z) {
      EnclosingExists(target, zones - {z});
      var rest :| IsEnclosing(target, zones - {z}, rest);
      if rest.None? || |rest.value| <= |z| { assert IsEnclosing(target, zones, Some(z)); }
      else { assert IsEnclosing(target, zones, rest); }
    } else {
      assert IsEnclosing(target, zones, None);
    }
  }

  ghost function Enclosing(target: string, zones: set<string>): (best: Option<string>)
    ensures IsEnclosing(target, zones, best)
  {
    EnclosingExists(target, zones);
    var best :| IsEnclosing(target, zones, best);
    best
  }

  method EnclosingZone(name: string, zoneNames: seq<string>) returns (best: Option<string>)
    ensures best == Enclosing(Canonical(name), Canonicals(zoneNames))
  {
    hide Canonical, Matches;
    var target := Canonical(name);
    best := None;
    for k := 0 to |zoneNames|
      invariant IsEnclosing(target, Canonicals(zoneNames[..k]), best)
    {
      var zone := Canonical(zoneNames[k]);
      assert Canonicals(zoneNames[..k + 1]) == Canonicals(zoneNames[..k]) + {zone};
      if zone == "" {
        assert !Matches(target, zone) by { NoEmptyMatch(target); }
        continue;
      }
      var matches := target == zone || EndsWith(target, "." + zone);
      assert matches == Matches(target, zone) by { MatchesIs(target, zone); }
      if matches && (best.None? || |zone| > |best.value|) {
        best := Some(zone);
      }
    }
    assert zoneNames[..|zoneNames|] == zoneNames;
    EnclosingUnique(target, Canonicals(zoneNames), best, Enclosing(target, Canonicals(zoneNames)));
  }

  lemma NoEmptyMatch(target: string)
    ensures !Matches(target, "")
  {
  }

  lemma MatchesIs(target: string, zone: string)
    requires zone != ""
    ensures Matches(target, zone) == (target == zone || EndsWith(target, "." + zone))
  {
  }

  lemma ZonesAreCanonical(entry: string, parse: string -> Option<Network>, z: string)
    requires z in ZonesOfEntry(entry, parse)
    ensures IsCanonical(z) && z != ""
  {
    hide ZoneName, Canonical, NetworkAddress, SubnetAddress, Boundary;
    var net := parse(entry).value;
    var zones := ZonesForNetwork(net).value;
    if net.prefix >= SmallestZonePrefix(net.ip.family) {
      ZoneNameIsCanonical(NetworkAddress(net), SmallestZonePrefix(net.ip.family));
    } else {
      var i :| 0 <= i < |zones| && z == zones[i];
      ZoneNameIsCanonical(SubnetAddress(net, i), Boundary(net.ip.family, net.prefix));
    }
  }

  lemma {:induction false} AllZonesAreCanonical(entries: seq<string>, parse: string -> Option<Network>)
    ensures forall z :: z in AllZones(entries, parse) ==> IsCanonical(z) && z != ""
  {
    hide Canonical, ZonesOfEntry;
    if entries != [] {
      AllZonesAreCanonical(entries[..|entries| - 1], parse);
      forall z | z in ZonesOfEntry(entries[|entries| - 1], parse) ensures IsCanonical(z) && z != "" {
        ZonesAreCanonical(entries[|entries| - 1], parse, z);
      }
    }
  }

  /**
   The list a form's networks turn into serves every address of every accepted network: looking the
   address up among those zones always finds one of them.
   */
  lemma ListedZonesServe(entries: seq<string>, k: nat, parse: string -> Option<Network>, ip: Ip)
    requires k < |entries| && IsAccepted(entries[k], parse)
    requires IsIp(ip) && Contains(parse(entries[k]).value, ip)
    ensures var zones := FirstOnly(AllZones(entries, parse));
      var best := Enclosing(PtrName(ip), Canonicals(zones));
      best.Some? && best.value in zones
  {
    hide Canonical, PtrName, Contains, ZonesForNetwork, AllZones;
    var net, all := parse(entries[k]).value, AllZones(entries, parse);
    var zones := FirstOnly(all);
    EveryAddressHasAZone(net, ip);
    var i :| 0 <= i < |ZonesForNetwork(net).value| && InZone(PtrName(ip), ZonesForNetwork(net).value[i]);
    var z := ZonesForNetwork(net).value[i];
    EntryIsCollected(entries, k, parse);
    AllZonesAreCanonical(entries, parse);
    assert z in ZonesOfEntry(entries[k], parse) && z in zones;
    assert Canonical(z) in Canonicals(zones) && Matches(PtrName(ip), z);
  }
}
