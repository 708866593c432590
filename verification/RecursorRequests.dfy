/** The recursor's requests as they arrive, each of them one of those that the runs are made of. */
module RecursorRequests {
  import opened PyText
  import opened Names
  import opened ZoneIds
  import opened Recursor
  import opened RecursorSync
  import opened RecursorLaws

  /** What a request leaves is what it may leave, and keeps the rules healthy if a server can hold its names. */
  ghost predicate IsRequest(zones: Stored, r: Request, zones': Stored) {
    MayLeave(zones, r, zones') && (IsHealthy(zones) && IsServable(r) ==> IsHealthy(zones'))
  }

  lemma MayLeaveIsRequest(zones: Stored, r: Request, zones': Stored)
    requires MayLeave(zones, r, zones')
    ensures IsRequest(zones, r, zones')
  {
    hide MayLeave, IsHealthy, IsServable;
    if IsHealthy(zones) && IsServable(r) { RequestKeepsHealthy(zones, r, zones'); }
  }

  /** A forward rule that goes to the target and nowhere else. */
  predicate PointsAt(z: Option<Zone>, target: string) {
    z.Some? && z.value.kind == Forwarded && z.value.servers == [target]
  }

  predicate PointsElsewhere(z: Option<Zone>, target: string) {
    z.Some? && z.value.kind == Forwarded && z.value.servers != [target]
  }

  /** The rule that the form edits has another name. */
  predicate IsRenaming(original: string, name: string) {
    original != "" && Canonical(original) != Canonical(name)
  }

  /**
   The form of a rule. A renamed one is deleted under its old name first, and so lost if the save then fails; `between`
   are the rules at that point.
   */
  method PostRule(server: RecursorServer, original: string, name: string, servers: seq<string>, recursionDesired: bool)
    returns (ok: bool, ghost between: Stored)
    requires IsKept(server.zones)
    modifies server
    ensures IsKept(between) && IsKept(server.zones)
    ensures if IsRenaming(original, name) then IsRequest(old(server.zones), DeleteRule(original), between)
            else between == old(server.zones)
    ensures IsRequest(between, SaveRule(name, servers, recursionDesired), server.zones)
    ensures ok ==>
      && (IsRenaming(original, name) ==> IsDeleted(old(server.zones), original, between))
      && server.zones == Upserted(between, Rule(Canonical(name), servers, recursionDesired))
    ensures !ok ==> server.zones == between
    ensures ok <==> Strip(name) != "" && servers != [] && server.failures == old(server.failures)
    ensures ok ==>
      At(server.zones, Canonical(name)) == Some(Zone(Canonical(name), Forwarded, servers, recursionDesired))
  {
    hide Canonical, ApiId, Strip, IsKept, IsServed, Upserted, Dropped, RulesAreCanonical, At;
    between := server.zones;
    ok := false;
    ghost var save := SaveRule(name, servers, recursionDesired);
    if Strip(name) == "" || servers == [] {
      MayLeaveIsRequest(between, DeleteRule(original), between);
      MayLeaveIsRequest(between, save, between);
      return;
    }
    ghost var zones := server.zones;
    if IsRenaming(original, name) {
      ok := server.DeleteForwardZone(original);
      between := server.zones;
      MayLeaveIsRequest(zones, DeleteRule(original), between);
      if !ok {
        MayLeaveIsRequest(between, save, between);
        return;
      }
    }
    CanonicalIdempotent(name);
    ok := server.SaveForwardZone(Canonical(name), servers, recursionDesired);
    MayLeaveIsRequest(between, save, server.zones);
    UpsertAt(between, Rule(Canonical(name), servers, recursionDesired), Canonical(name));
  }

  /** After a rename the old name has no rule, the new one has this rule, and all others have what they had. */
  lemma RenamedAt(zones: Stored, original: string, rule: Zone, name: string)
    requires IsServed(zones) && IsCanonical(rule.name) && rule.name != "" && IsLatin(rule.name)
    requires IsRenaming(original, rule.name) && At(zones, Canonical(original)).Some?
    ensures At(Upserted(Dropped(zones, Canonical(original)), rule), name) ==
      if name == rule.name then Some(rule) else if name == Canonical(original) then None else At(zones, name)
  {
    hide Canonical, ApiId, IsServerName, At, Upserted, Dropped, IsServed;
    ServedIsKept(zones);
    DropIsKept(zones, Canonical(original));
    DropAt(zones, Canonical(original), name);
    UpsertAt(Dropped(zones, Canonical(original)), rule, name);
  }

  method PostRuleDeletion(server: RecursorServer, name: string) returns (ok: bool)
    requires IsKept(server.zones)
    modifies server
    ensures IsKept(server.zones) && IsRequest(old(server.zones), DeleteRule(name), server.zones)
    ensures if ok then IsDeleted(old(server.zones), name, server.zones) else server.zones == old(server.zones)
    ensures ok <==> server.failures == old(server.failures)
  {
    hide Canonical, ApiId, IsKept, IsServed, Dropped;
    ghost var zones := server.zones;
    ok := server.DeleteForwardZone(name);
    MayLeaveIsRequest(zones, DeleteRule(name), server.zones);
  }

  /** What follows the creation or, with `remove`, the deletion of a zone. */
  method FollowZone(server: RecursorServer, zoneName: string, target: string, remove: bool) returns (ok: bool)
    requires IsKept(server.zones)
    modifies server
    ensures IsKept(server.zones) && IsRequest(old(server.zones), Follow(zoneName, target, remove), server.zones)
    ensures ok <==> server.failures == old(server.failures)
    ensures ok ==>
      var before, name := old(server.zones), Canonical(zoneName);
      server.zones ==
        if !remove then Upserted(before, LocalRule(name, target))
        else if ForwardsTo(At(before, name), target) then Dropped(before, name) else before
    ensures ok ==>
      var before, name := At(old(server.zones), Canonical(zoneName)), Canonical(zoneName);
      At(server.zones, name) ==
        if !remove then Some(Zone(name, Forwarded, [target], false))
        else if PointsAt(before, target) then None else before
  {
    hide Canonical, ApiId, IsKept, IsServed, Dropped, Upserted, At;
    CanonicalIdempotent(zoneName);
    UpsertAt(server.zones, LocalRule(Canonical(zoneName), target), Canonical(zoneName));
    DropAt(server.zones, Canonical(zoneName), Canonical(zoneName));
    ghost var zones := server.zones;
    ok := ForwardLocally(server, zoneName, target, remove);
    MayLeaveIsRequest(zones, Follow(zoneName, target, remove), server.zones);
  }

  /** Some listed name that is not blank reads as this one. */
  ghost predicate IsListed(names: seq<string>, name: string) {
    exists x :: x in names && Strip(x) != "" && Canonical(x) == name
  }

  /**
   The purpose of a sync, name by name. A listed name keeps the rule it has, whoever's it is, and gets a new one,
   without recursion, if it has none. Any other name loses the rule that points at the target, but for the root, and
   keeps all else.
   */
  ghost predicate IsUpToDate(zones: Stored, names: seq<string>, target: string, zones': Stored) {
    forall n :: IsCanonical(n) ==>
      var before, after := At(zones, n), At(zones', n);
      if IsListed(names, n) then
        after == if PointsAt(before, target) || PointsElsewhere(before, target) then before
                 else Some(Zone(n, Forwarded, [target], false))
      else after == if PointsAt(before, target) && n != "." then None else before
  }

  lemma SettledIsUpToDate(zones: Stored, names: seq<string>, target: string, zones': Stored)
    requires RulesAreCanonical(zones)
    requires forall n :: IsCanonical(n) ==>
      At(zones', n) == Settled(At(zones, n), n, n in WantedNames(names), target)
    ensures IsUpToDate(zones, names, target, zones')
  {
    hide Canonical, Strip, At, RulesAreCanonical;
    forall n | IsCanonical(n)
      ensures n in WantedNames(names) <==> IsListed(names, n)
      ensures At(zones, n).Some? && At(zones, n).value.kind == Forwarded ==> At(zones, n).value.name == n
    {
      if At(zones, n).Some? && At(zones, n).value.kind == Forwarded { RuleAt(zones, n); }
    }
  }

  method PostSync(names: seq<string>, server: RecursorServer, target: string)
    returns (failed: bool, added: set<string>, removed: set<string>)
    requires IsServed(server.zones) && IsServable(Sync(names, target))
    modifies server
    ensures IsServed(server.zones) && IsRequest(old(server.zones), Sync(names, target), server.zones)
    ensures failed <==> server.failures > old(server.failures)
    ensures !failed ==>
      var wanted := WantedNames(names);
      forall n :: IsCanonical(n) ==> At(server.zones, n) == Settled(At(old(server.zones), n), n, n in wanted, target)
    ensures !failed && RulesAreCanonical(old(server.zones)) ==>
      IsUpToDate(old(server.zones), names, target, server.zones)
  {
    hide Canonical, ApiId, IsKept, IsServed, At, ToAdd, ToRemove, WantedNames, AtAfter, AreServable, Settled;
    ghost var zones := server.zones;
    ServedIsKept(zones);
    failed, added, removed := SyncLocalZones(names, server, target);
    MayLeaveIsRequest(zones, Sync(names, target), server.zones);
    if !failed {
      forall n | IsCanonical(n)
        ensures At(server.zones, n) == Settled(At(zones, n), n, n in WantedNames(names), target)
      {
        SyncSettles(zones, WantedNames(names), target, n);
      }
      hide IsUpToDate, RulesAreCanonical;
      if RulesAreCanonical(zones) { SettledIsUpToDate(zones, names, target, server.zones); }
    }
  }
}
