/** What syncs, saves and deletions of record sets are for, said of the stored sets and rows alone. */
module SyncEffects {
  import opened PyText
  import opened Names
  import opened ReverseNames
  import opened EnclosingZones
  import opened RecordRules
  import opened PanelState
  import opened SyncLaws
  import opened ZoneHandlers
  import opened LinkRows
  import opened ZoneRuns

  // ----- where a PTR goes, and who may write it there -----

  /** The name is the zone or lies below it. */
  predicate IsBelow(name: string, zone: string) {
    zone != "" && (name == zone || (|name| > |zone| && name[|name| - |zone| - 1..] == "." + zone))
  }

  predicate IsAround(zone: string, ptr: string) {
    IsBelow(ptr, Canonical(zone))
  }

  /** The longest of some zones around a PTR. */
  ghost predicate IsNearest(zones: set<string>, ptr: string, place: string) {
    && (exists z :: z in zones && IsAround(z, ptr) && Canonical(z) == place)
    && (forall z :: z in zones && IsAround(z, ptr) ==> |Canonical(z)| <= |place|)
  }

  /** The zones that a zone is paired with. */
  ghost function Partners(s: Store, zone: string): set<string> {
    set pair | pair in s.pairs && pair.0 == zone :: pair.1
  }

  /** A PTR belongs in the nearest zone that the record's zone is paired with, and only if none of those is around it
      in the nearest zone of all. */
  ghost predicate Belongs(s: Store, zone: string, ptr: string, place: string) {
    if exists z :: z in Partners(s, zone) && IsAround(z, ptr) then IsNearest(Partners(s, zone), ptr, place)
    else IsNearest(s.zones, ptr, place)
  }

  lemma BelowIs(name: string, zone: string)
    ensures Matches(name, zone) <==> IsBelow(name, zone)
  {
  }

  lemma NearestIs(zones: set<string>, ptr: string, place: string)
    ensures IsNearest(zones, ptr, place) <==> Enclosing(ptr, CanonicalSet(zones)) == Some(place)
    ensures Enclosing(ptr, CanonicalSet(zones)).None? <==> forall z :: z in zones ==> !IsAround(z, ptr)
  {
    hide Canonical, Matches, IsBelow;
    var all := CanonicalSet(zones);
    forall z: string ensures Matches(ptr, z) <==> IsBelow(ptr, z) { BelowIs(ptr, z); }
    assert forall z :: z in zones ==> Canonical(z) in all;
    if IsNearest(zones, ptr, place) {
      assert IsEnclosing(ptr, all, Some(place));
      EnclosingUnique(ptr, all, Some(place), Enclosing(ptr, all));
    }
  }

  lemma PlacementIs(s: Store, zone: string, ptr: string)
    ensures forall place :: Placement(s, zone, ptr) == Some(place) <==> Belongs(s, zone, ptr, place)
  {
    hide IsNearest, IsAround, Enclosing, Canonical;
    assert PairedZones(s, zone) == Partners(s, zone);
    forall place ensures Placement(s, zone, ptr) == Some(place) <==> Belongs(s, zone, ptr, place) {
      NearestIs(Partners(s, zone), ptr, place);
      NearestIs(s.zones, ptr, place);
    }
  }

  /** Whether this text on a user's list of zones opens the zone: the same name in any case, with any dots behind. */
  predicate Opens(grant: string, zone: string)
    requires zone != ""
  {
    var body := zone[..|zone| - 1];
    body <= Lower(grant) && forall i :: |body| <= i < |grant| ==> grant[i] == '.'
  }

  /** Operators may edit every zone, and others those on their lists. */
  lemma CanEditIff(user: User, zone: string)
    requires IsName(zone)
    ensures CanEdit(user, zone) <==> user.isOperator || exists g :: g in user.grants && Opens(g, zone)
  {
    hide StripDots, Canonical;
    forall g | g in user.grants ensures TrimmedZone(g) == TrimmedZone(zone) <==> Opens(g, zone) { OpensIs(g, zone); }
  }

  lemma OpensIs(grant: string, zone: string)
    requires IsName(zone)
    ensures TrimmedZone(grant) == TrimmedZone(zone) <==> Opens(grant, zone)
  {
    hide Canonical, StripDots, IsTrimmed;
    CanonicalIffShape(zone);
    BodyOfCanonical(zone);
    var body, g := zone[..|zone| - 1], Lower(grant);
    assert StripDots(zone) == body && Lower(zone) == zone;
    assert forall i :: 0 <= i < |grant| ==> (g[i] == '.' <==> grant[i] == '.');
    if Opens(grant, zone) { DotsBehind(g, body); }
  }

  /** Stripping takes exactly the dots behind a text that does not end in one. */
  lemma DotsBehind(g: string, body: string)
    requires body <= g && (body == "" || body[|body| - 1] != '.') && forall i :: |body| <= i < |g| ==> g[i] == '.'
    ensures StripDots(g) == body
  {
    var t := StripDots(g);
    assert |t| <= |body| <= |t|;
  }

  // ----- one sync -----

  /** One of the addresses has this PTR name, and the user may write it where it belongs. */
  ghost predicate IsAsked(parsers: Parsers, s: Store, user: User, zone: string, addresses: seq<string>, ptr: string,
                          place: string)
  {
    && (exists x :: x in addresses && IsPtrOf(parsers, x, ptr))
    && Belongs(s, zone, ptr, place) && CanEdit(user, place)
  }

  predicate IsPtrOf(parsers: Parsers, text: string, ptr: string) {
    var ip := parsers.address(Strip(text));
    ip.Some? && PtrName(ip.value) == ptr
  }

  /** The link's forward side is the record set of this zone, name and type. */
  predicate IsOf(link: Link, owner: Key) {
    link.forwardZone == owner.zone && link.forwardName == owner.name && link.forwardType == owner.rtype
  }

  /** The PTR is in this zone, linked to the record set for one of these addresses, and is exactly its name. */
  ghost predicate IsServed(parsers: Parsers, s: Store, owner: Key, ttl: int, addresses: seq<string>, ptr: string,
                           place: string)
  {
    && ptr in s.links && IsOf(s.links[ptr], owner) && s.links[ptr].reverseZone == place
    && s.links[ptr].address in addresses && IsPtrOf(parsers, s.links[ptr].address, ptr)
    && IsNamed(s, ptr, place, owner, ttl)
  }

  /** The PTR set holds one enabled record, the name of the record set, and says whose it is. */
  predicate IsNamed(s: Store, ptr: string, place: string, owner: Key, ttl: int) {
    var k := Key(place, ptr, "PTR");
    k in s.rrsets && s.rrsets[k] == RRset(ttl, [Record(owner.name, false)],
                                          "Linked to " + StripDots(owner.name) + " " + owner.rtype)
  }

  lemma AskedIsWanted(parsers: Parsers, s: Store, user: User, a: SyncArgs, ptr: string)
    ensures ptr in Wanted(parsers, s, user, a) <==>
      a.enabled && (a.owner.rtype == "A" || a.owner.rtype == "AAAA")
        && exists place :: IsAsked(parsers, s, user, a.owner.zone, a.addresses, ptr, place)
    ensures ptr in Wanted(parsers, s, user, a) ==>
      var t := Wanted(parsers, s, user, a)[ptr];
      && t.address in a.addresses && IsPtrOf(parsers, t.address, ptr)
      && IsAsked(parsers, s, user, a.owner.zone, a.addresses, ptr, t.reverseZone)
  {
    hide PtrName, Placement, CanEdit, Belongs, Targets;
    var zone, wanted := a.owner.zone, Wanted(parsers, s, user, a);
    PlacementIs(s, zone, ptr);
    if ptr in wanted {
      WantedIs(parsers, s, user, a, ptr);
      assert IsPtrOf(parsers, wanted[ptr].address, ptr);
      assert IsAsked(parsers, s, user, zone, a.addresses, ptr, wanted[ptr].reverseZone);
    }
    if IsSyncing(a) && exists place :: IsAsked(parsers, s, user, zone, a.addresses, ptr, place) {
      var place :| IsAsked(parsers, s, user, zone, a.addresses, ptr, place);
      var x :| x in a.addresses && IsPtrOf(parsers, x, ptr);
      TargetsExactly(parsers, s, user, zone, a.addresses, wanted);
      assert IsWanted(parsers, s, user, zone, x, ptr);
    }
  }

  lemma PtrSetIsNamed(s: Store, a: SyncArgs, ptr: string, place: string)
    requires IsName(a.owner.name) && Lookup(s, Key(place, ptr, "PTR")) == Some(PtrSet(a))
    ensures IsNamed(s, ptr, place, a.owner, a.ttl)
  {
    hide StripDots, Canonical;
    assert Strip(a.owner.name) != "" by { CanonicalHasShape(a.owner.name); }
    assert RecordsOf([a.owner.name], false)[0] == Record(a.owner.name, false);
  }

  /**
   A complete sync of an address record links it to the PTR of every address that has a zone the user may write to, each
   in the zone it belongs in and with exactly the record's name - and to nothing else. Without the box, or for any other
   type, it leaves the record owning nothing.
   */
  lemma SyncLinksExactly(parsers: Parsers, s: Store, user: User, a: SyncArgs, ptr: string)
    requires IsName(a.owner.name)
    ensures var s' := CleanSync(parsers, s, user, a);
      && (ptr in s'.links && IsOf(s'.links[ptr], a.owner) <==>
            a.enabled && (a.owner.rtype == "A" || a.owner.rtype == "AAAA")
              && exists place :: IsAsked(parsers, s, user, a.owner.zone, a.addresses, ptr, place))
      && (ptr in s'.links && IsOf(s'.links[ptr], a.owner) ==>
            var place := s'.links[ptr].reverseZone;
            && IsAsked(parsers, s, user, a.owner.zone, a.addresses, ptr, place)
            && IsServed(parsers, s', a.owner, a.ttl, a.addresses, ptr, place))
  {
    hide Wanted, PtrSet, Answers, IsAsked, IsPtrOf, IsNamed;
    var s', wanted := CleanSync(parsers, s, user, a), Wanted(parsers, s, user, a);
    AskedIsWanted(parsers, s, user, a, ptr);
    if ptr in wanted {
      var place := wanted[ptr].reverseZone;
      LookupAfterSync(s, a, wanted, wanted.Keys, Retired(s, a, wanted), StillOurs(s, Retired(s, a, wanted)),
                      Key(place, ptr, "PTR"));
      PtrSetIsNamed(s', a, ptr, place);
    }
  }

  /** The PTR set holds one record, and that is the link's forward name. */
  predicate SaysName(s: Store, ptr: string, link: Link) {
    var k := Key(link.reverseZone, ptr, "PTR");
    k in s.rrsets && |s.rrsets[k].records| == 1 && Canonical(s.rrsets[k].records[0].content) == link.forwardName
  }

  lemma AnswersIs(s: Store, ptr: string, link: Link)
    ensures Answers(s, ptr, link) <==> SaysName(s, ptr, link)
  {
    hide Canonical;
    var k := PtrKey(link.reverseZone, ptr);
    if k in s.rrsets && |s.rrsets[k].records| == 1 {
      assert CanonicalContents(s.rrsets[k])[0] == Canonical(s.rrsets[k].records[0].content);
    }
  }

  /** What a sync does about a link of its record that is not asked for any more: the row goes, and its PTR set with it
      if that still says what the link says, and otherwise stays. */
  lemma SyncRetires(parsers: Parsers, s: Store, user: User, a: SyncArgs, ptr: string)
    requires ptr in s.links && IsOf(s.links[ptr], a.owner)
    requires a.enabled && (a.owner.rtype == "A" || a.owner.rtype == "AAAA") ==>
      forall place :: !IsAsked(parsers, s, user, a.owner.zone, a.addresses, ptr, place)
    ensures var s', k := CleanSync(parsers, s, user, a), Key(s.links[ptr].reverseZone, ptr, "PTR");
      && ptr !in s'.links
      && Lookup(s', k) == if SaysName(s, ptr, s.links[ptr]) then None else Lookup(s, k)
  {
    hide Wanted, PtrSet, IsAsked, Answers, SaysName;
    var wanted := Wanted(parsers, s, user, a);
    AskedIsWanted(parsers, s, user, a, ptr);
    AnswersIs(s, ptr, s.links[ptr]);
    LookupAfterSync(s, a, wanted, wanted.Keys, Retired(s, a, wanted), StillOurs(s, Retired(s, a, wanted)),
                    Key(s.links[ptr].reverseZone, ptr, "PTR"));
  }

  /** A row of another record that the sync does not take over stays, and its PTR set reads as before. */
  lemma SyncSparesOthers(parsers: Parsers, s: Store, user: User, a: SyncArgs, ptr: string)
    requires ptr in s.links ==> !IsOf(s.links[ptr], a.owner)
    requires a.enabled && (a.owner.rtype == "A" || a.owner.rtype == "AAAA") ==>
      forall place :: !IsAsked(parsers, s, user, a.owner.zone, a.addresses, ptr, place)
    ensures var s' := CleanSync(parsers, s, user, a);
      && (ptr in s'.links <==> ptr in s.links) && (ptr in s.links ==> s'.links[ptr] == s.links[ptr])
      && forall k: Key :: k.name == ptr || k.rtype != "PTR" ==> Lookup(s', k) == Lookup(s, k)
  {
    hide Wanted, PtrSet, IsAsked, Answers;
    var wanted := Wanted(parsers, s, user, a);
    AskedIsWanted(parsers, s, user, a, ptr);
    forall k: Key | k.name == ptr || k.rtype != "PTR"
      ensures Lookup(CleanSync(parsers, s, user, a), k) == Lookup(s, k)
    {
      LookupAfterSync(s, a, wanted, wanted.Keys, Retired(s, a, wanted), StillOurs(s, Retired(s, a, wanted)), k);
    }
  }

  // ----- what the operator is told -----

  /** An address is reported when no zone is around its PTR, and a zone when the user may not write there. */
  lemma ReportsAre(parsers: Parsers, s: Store, user: User, zone: string, addresses: seq<string>, x: string)
    ensures x in Unplaced(parsers, s, zone, addresses) <==>
      x in addresses && exists ptr :: IsPtrOf(parsers, x, ptr) && forall place :: !Belongs(s, zone, ptr, place)
    ensures x in Denied(parsers, s, user, zone, addresses) <==>
      !CanEdit(user, x) && exists y, ptr :: y in addresses && IsPtrOf(parsers, y, ptr) && Belongs(s, zone, ptr, x)
  {
    hide PtrName, Placement, CanEdit, Belongs;
    forall ptr ensures forall place :: Placement(s, zone, ptr) == Some(place) <==> Belongs(s, zone, ptr, place) {
      PlacementIs(s, zone, ptr);
    }
    if x in Denied(parsers, s, user, zone, addresses) {
      var y :| y in addresses && PlaceOf(parsers, s, zone, y) == Some(x) && !CanEdit(user, x);
      assert IsPtrOf(parsers, y, PtrOf(parsers, y).value);
    }
    if x in addresses && PtrOf(parsers, x).Some? {
      var ptr := PtrOf(parsers, x).value;
      assert IsPtrOf(parsers, x, ptr);
      assert Placement(s, zone, ptr).Some? ==> Belongs(s, zone, ptr, Placement(s, zone, ptr).value);
    }
    if y, ptr :| y in addresses && IsPtrOf(parsers, y, ptr) && Belongs(s, zone, ptr, x) && !CanEdit(user, x) {
      assert PlaceOf(parsers, s, zone, y) == Some(x);
    }
  }
}
