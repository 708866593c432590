/** Bringing the recursor's rules for the local zones up to date. */
module RecursorSync {
  import opened PyText
  import opened Names
  import opened ZoneIds
  import opened Recursor

  predicate IsOurs(z: Zone, target: string) {
    z.kind == Forwarded && z.name != "." && z.servers == [target]
  }

  /** A rule that is somebody else's, or the root rule. */
  predicate IsForeign(z: Zone, target: string) {
    z.kind == Forwarded && !IsOurs(z, target)
  }

  /** The names, as stored, of the rules that are ours. */
  function OurNames(zones: Stored, target: string): set<string> {
    set id | id in zones && IsOurs(zones[id], target) :: zones[id].name
  }

  function RuleNames(zones: Stored): set<string> {
    set id | id in zones && zones[id].kind == Forwarded :: zones[id].name
  }

  function WantedNames(names: seq<string>): set<string> {
    set n | n in names && Strip(n) != "" :: Canonical(n)
  }

  /** The rule a sync writes. */
  function LocalRule(name: string, target: string): Zone {
    Rule(name, [target], false)
  }

  /** The names with no rule yet, and the rules of ours that are not wanted any more. */
  function ToAdd(zones: Stored, wanted: set<string>): set<string> {
    wanted - RuleNames(zones)
  }

  function ToRemove(zones: Stored, wanted: set<string>, target: string): set<string> {
    OurNames(zones, target) - wanted
  }

  /** What a name has once rules were added for `added` and the rules named `removed` deleted. */
  ghost function AtAfter(zones: Stored, target: string, added: set<string>, removed: set<string>,
                         name: string): Option<Zone> {
    if exists r :: r in removed && Canonical(r) == name then None
    else if name in added then Some(LocalRule(name, target))
    else At(zones, name)
  }

  ghost predicate IsAfter(zones: Stored, target: string, added: set<string>, removed: set<string>, zones': Stored) {
    IsServed(zones') && forall name :: At(zones', name) == AtAfter(zones, target, added, removed, name)
  }

  /** Names a server can hold. */
  predicate AreServable(names: set<string>) {
    forall n :: n in names ==> n != "" && IsCanonical(n) && IsLatin(n)
  }

  /** `added` and `removed` say how far a sync got; without a failure it got all the way. What the store is then is told
      for names below code point 256. */
  method SyncLocalZones(names: seq<string>, server: RecursorServer, target: string)
    returns (failed: bool, added: set<string>, removed: set<string>)
    requires IsKept(server.zones)
    modifies server
    ensures IsKept(server.zones)
    ensures added <= ToAdd(old(server.zones), WantedNames(names))
    ensures removed <= ToRemove(old(server.zones), WantedNames(names), target)
    ensures failed <==> server.failures > old(server.failures)
    ensures removed != {} ==> added == ToAdd(old(server.zones), WantedNames(names))
    ensures IsServed(old(server.zones)) && AreServable(WantedNames(names)) ==>
      IsAfter(old(server.zones), target, added, removed, server.zones)
    ensures !failed ==>
      added == ToAdd(old(server.zones), WantedNames(names)) &&
      removed == ToRemove(old(server.zones), WantedNames(names), target)
  {
    hide Canonical, ApiId, IsServerName, Strip, ToRemove, ToAdd, IsAfter, IsKept, IsServed, Upserted, Dropped,
         RuleNames, OurNames, AreServable, At;
    ghost var zones := server.zones;
    added, removed := {}, {};
    var wanted := WantedNames(names);
    ghost var isTold := IsServed(zones) && AreServable(wanted);
    if isTold { NothingChanged(zones, target); }
    var listed := server.Responds(true);
    if !listed { return true, {}, {}; }
    var toAdd, toRemove := ToAdd(server.zones, wanted), ToRemove(server.zones, wanted, target);
    AddedAreWanted(zones, wanted);
    var rest := toAdd;
    while rest != {}
      invariant rest <= toAdd && added == toAdd - rest && server.failures == old(server.failures)
      invariant IsKept(server.zones) && (isTold ==> IsAfter(zones, target, added, {}, server.zones))
      decreases rest
    {
      var name :| name in rest;
      ghost var before := server.zones;
      var ok := server.SaveForwardZone(name, [target], false);
      if !ok { return true, added, {}; }
      if isTold { AddOne(zones, wanted, target, added, name, before); }
      rest, added := rest - {name}, added + {name};
      assert toAdd - rest == added;
    }
    rest := toRemove;
    while rest != {}
      invariant rest <= toRemove && removed == toRemove - rest && added == toAdd
      invariant server.failures == old(server.failures)
      invariant IsKept(server.zones) && (isTold ==> IsAfter(zones, target, added, removed, server.zones))
      decreases rest
    {
      var name :| name in rest;
      ghost var before := server.zones;
      var ok := server.DeleteForwardZone(name);
      if !ok { return true, added, removed; }
      if isTold { RemoveOne(zones, wanted, target, added, removed, name, before, server.zones); }
      rest, removed := rest - {name}, removed + {name};
      assert toRemove - rest == removed;
    }
    return false, added, removed;
  }

  /** What the recursor forwards under a name in any case. */
  ghost function RuleUnder(zones: Stored, name: string): Option<Zone> {
    match At(zones, Canonical(name))
    case None => None
    case Some(z) => if z.kind == Forwarded then Some(z) else None
  }

  /** `get_forward_zone`: the rule under a name in any case, if there is one. */
  method GetForwardZone(server: RecursorServer, name: string) returns (ok: bool, rule: Option<Zone>)
    requires IsKept(server.zones)
    modifies server`failures
    ensures ok ==> rule == RuleUnder(server.zones, name)
    ensures server.failures == old(server.failures) + if ok then 0 else 1
  {
    hide Canonical, ApiId, IsServerName;
    ok := server.Responds(true);
    var wanted := Canonical(name);
    if id :| id in server.zones && server.zones[id].kind == Forwarded && Canonical(server.zones[id].name) == wanted {
      AtIs(server.zones, id);
      return ok, Some(server.zones[id]);
    }
    return ok, None;
  }

  /**
   `_forward_locally`: after a zone is created its rule is written, whatever was there; after it is deleted the
   rule goes only if it pointed at the target.
   */
  method ForwardLocally(server: RecursorServer, zoneName: string, target: string, remove: bool) returns (ok: bool)
    requires IsKept(server.zones)
    modifies server
    ensures IsKept(server.zones)
    ensures IsServed(old(server.zones)) && Canonical(zoneName) != "" && IsLatin(Canonical(zoneName)) ==>
      IsServed(server.zones)
    ensures ok <==> server.failures == old(server.failures)
    ensures !ok ==> server.zones == old(server.zones)
    ensures ok && !remove ==> server.zones == Upserted(old(server.zones), LocalRule(Canonical(zoneName), target))
    ensures ok && remove ==>
      var z := At(old(server.zones), Canonical(zoneName));
      server.zones == if z.Some? && z.value.kind == Forwarded && z.value.servers == [target]
                      then Dropped(old(server.zones), Canonical(zoneName)) else old(server.zones)
  {
    hide Canonical, ApiId, IsServerName, At, IsKept, IsServed, Dropped, Upserted;
    if !remove {
      ok := server.SaveForwardZone(zoneName, [target], false);
      return ok;
    }
    var found, existing := GetForwardZone(server, zoneName);
    if !found { return false; }
    if existing.None? || existing.value.servers != [target] { return true; }
    ok := server.DeleteForwardZone(zoneName);
  }

  lemma NothingChanged(zones: Stored, target: string)
    requires IsServed(zones)
    ensures IsAfter(zones, target, {}, {}, zones)
  {
  }

  lemma AddedAreWanted(zones: Stored, wanted: set<string>)
    ensures ToAdd(zones, wanted) <= wanted
  {
  }

  lemma AddOne(zones: Stored, wanted: set<string>, target: string, added: set<string>, name: string, before: Stored)
    requires IsAfter(zones, target, added, {}, before) && AreServable(wanted) && name in wanted
    ensures IsAfter(zones, target, added + {name}, {}, Upserted(before, LocalRule(Canonical(name), target)))
  {
    hide Canonical, ApiId, IsServerName, Upserted, At;
    var rule := LocalRule(name, target);
    UpsertIsServed(before, rule);
    forall n ensures At(Upserted(before, rule), n) == AtAfter(zones, target, added + {name}, {}, n) {
      UpsertAt(before, rule, n);
    }
  }

  lemma RemoveOne(zones: Stored, wanted: set<string>, target: string, added: set<string>, removed: set<string>,
                  name: string, before: Stored, after: Stored)
    requires IsServed(zones) && name in ToRemove(zones, wanted, target)
    requires IsAfter(zones, target, added, removed, before)
    requires if At(before, Canonical(name)).Some? then after ==
      Dropped(before, Canonical(name)) else ZoneIdFor(name) in before
    ensures IsAfter(zones, target, added, removed + {name}, after)
  {
    hide Canonical, ApiId, IsServerName, Dropped, At, ToRemove;
    OursAreLatin(zones, wanted, target, name);
    if At(before, Canonical(name)).None? { DeletesOnlyItsOwn(before, name); }
    DropIsKept(before, Canonical(name));
    forall n ensures At(Dropped(before, Canonical(name)), n) == AtAfter(zones, target, added, removed + {name}, n) {
      DropAt(before, Canonical(name), n);
      assert n == Canonical(name) ==> name in removed + {name};
      assert forall r :: r in removed + {name} <==> r in removed || r == name;
    }
  }

  lemma OursAreLatin(zones: Stored, wanted: set<string>, target: string, name: string)
    requires IsServed(zones) && name in ToRemove(zones, wanted, target)
    ensures IsLatin(Canonical(name)) && Canonical(name) != ""
  {
    hide Canonical, ApiId;
    CanonicalIsLatin(name);
  }

  lemma CanonicalIsLatin(name: string)
    requires IsServerName(name)
    ensures IsLatin(Canonical(name)) && Canonical(name) != ""
  {
    hide Strip, StripDots;
    StripKeeps(name);
  }

  lemma StripKeeps(name: string)
    requires IsServerName(name)
    ensures IsLatin(Strip(name)) && Strip(name) != ""
  {
  }
}
