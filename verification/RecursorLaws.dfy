/** Where a sync of the local zones ends, from any state of the recursor. */
module RecursorLaws {
  import opened PyText
  import opened Names
  import opened ZoneIds
  import opened Recursor
  import opened RecursorSync

  /** What a name ends with: ours goes unless it is wanted under this very name, and a wanted name without a rule
      gets one. */
  function Settled(z: Option<Zone>, name: string, isWanted: bool, target: string): Option<Zone> {
    if z.Some? && IsOurs(z.value, target) && !(isWanted && z.value.name == name) then None
    else if isWanted && !(z.Some? && z.value.kind == Forwarded && z.value.name == name)
    then Some(LocalRule(name, target))
    else z
  }

  predicate ForwardsTo(z: Option<Zone>, target: string) {
    z.Some? && z.value.kind == Forwarded && z.value.servers == [target]
  }

  lemma RuleNamesAt(zones: Stored, name: string)
    requires IsServed(zones) && IsCanonical(name)
    ensures name in RuleNames(zones) <==>
      At(zones, name).Some? && At(zones, name).value.kind == Forwarded && At(zones, name).value.name == name
  {
    hide Canonical, ApiId, IsServerName;
    if name in RuleNames(zones) {
      var id :| id in zones && zones[id].kind == Forwarded && zones[id].name == name;
      AtIs(zones, id);
    }
  }

  lemma RemovedAt(zones: Stored, wanted: set<string>, target: string, name: string)
    requires IsServed(zones)
    ensures (exists r :: r in ToRemove(zones, wanted, target) && Canonical(r) == name) <==>
      At(zones, name).Some? && IsOurs(At(zones, name).value, target) && At(zones, name).value.name !in wanted
  {
    hide Canonical, ApiId, IsServerName;
    if r :| r in ToRemove(zones, wanted, target) && Canonical(r) == name {
      var id :| id in zones && IsOurs(zones[id], target) && zones[id].name == r;
      AtIs(zones, id);
    }
    if At(zones, name).Some? && IsOurs(At(zones, name).value, target) {
      assert At(zones, name).value.name in OurNames(zones, target);
    }
  }

  /** From any state of the recursor, a complete sync leaves each name exactly what `Settled` says. */
  lemma SyncSettles(zones: Stored, wanted: set<string>, target: string, name: string)
    requires IsServed(zones) && AreServable(wanted) && IsCanonical(name)
    ensures AtAfter(zones, target, ToAdd(zones, wanted), ToRemove(zones, wanted, target), name) ==
      Settled(At(zones, name), name, name in wanted, target)
  {
    hide ApiId, IsServerName, ToRemove, At;
    hide Canonical;
    RuleNamesAt(zones, name);
    RemovedAt(zones, wanted, target, name);
    if At(zones, name).Some? { AtHasName(zones, name); }
  }

  lemma AtHasName(zones: Stored, name: string)
    requires At(zones, name).Some?
    ensures Canonical(At(zones, name).value.name) == name
  {
    hide Canonical;
  }

  // ----- exactly when a sync does what it is for -----

  /** A wanted name nobody else rules ends up forwarding to the target, unless a rule of ours had it in another
      spelling. */
  lemma WantedForwardsIff(zones: Stored, wanted: set<string>, target: string, name: string)
    requires IsServed(zones) && AreServable(wanted) && name in wanted
    requires At(zones, name).Some? ==> !IsForeign(At(zones, name).value, target)
    ensures var before := At(zones, name);
      ForwardsTo(AtAfter(zones, target, ToAdd(zones, wanted), ToRemove(zones, wanted, target), name), target) <==>
        !(before.Some? && IsOurs(before.value, target) && before.value.name != name)
  {
    hide Canonical, ApiId, IsServerName, At, ToAdd, ToRemove, AtAfter;
    SyncSettles(zones, wanted, target, name);
  }

  /** Somebody else's rule stays, unless it has a wanted name in another spelling. */
  lemma ForeignStaysIff(zones: Stored, wanted: set<string>, target: string, name: string)
    requires IsServed(zones) && AreServable(wanted) && IsCanonical(name)
    requires At(zones, name).Some? && IsForeign(At(zones, name).value, target)
    ensures AtAfter(zones, target, ToAdd(zones, wanted), ToRemove(zones, wanted, target), name) == At(zones, name) <==>
      !(name in wanted && At(zones, name).value.name != name)
  {
    hide Canonical, ApiId, IsServerName, At, ToAdd, ToRemove, AtAfter;
    SyncSettles(zones, wanted, target, name);
  }

  /** Concretely: our rule for `A.`, with `a.` still wanted, is replaced under the new name and then deleted. */
  lemma MixedCaseRuleIsLost(target: string)
    ensures var zones := map[ApiId("A.") := LocalRule("A.", target)];
      && IsServed(zones) && ToAdd(zones, {"a."}) == {"a."} && ToRemove(zones, {"a."}, target) == {"A."}
      && AtAfter(zones, target, {"a."}, {"A."}, "a.") == None
  {
    hide ApiId;
    var zones := map[ApiId("A.") := LocalRule("A.", target)];
    LowerOfA();
    hide Canonical;
    assert "A."[0] != "a."[0];
    assert zones[ApiId("A.")].name == "A.";
    assert RuleNames(zones) == {"A."} && OurNames(zones, target) == {"A."};
  }

  /** And somebody else's rule for `A.` is overwritten when `a.` is wanted. */
  lemma MixedCaseForeignRuleIsLost(target: string, other: string)
    requires other != target
    ensures var zones := map[ApiId("A.") := LocalRule("A.", other)];
      && IsServed(zones) && At(zones, "a.") == Some(LocalRule("A.", other)) && IsForeign(LocalRule("A.", other), target)
      && AtAfter(zones, target, ToAdd(zones, {"a."}), ToRemove(zones, {"a."}, target), "a.") != At(zones, "a.")
  {
    hide ApiId;
    var zones := map[ApiId("A.") := LocalRule("A.", other)];
    LowerOfA();
    CanonicalIffShape("a.");
    hide Canonical;
    assert "A."[0] != "a."[0];
    assert zones[ApiId("A.")].name == "A.";
    AtIs(zones, ApiId("A."));
    ForeignStaysIff(zones, {"a."}, target, "a.");
  }

  /** Deleting a name beyond code point 255 that has no rule deletes the rule of another name. */
  lemma WideNameDeletesAnother(target: string)
    ensures var zones := map[ApiId(NARROW) := LocalRule(NARROW, target)];
      IsServed(zones) && At(zones, WIDE) == None && ZoneIdFor(WIDE) in zones
  {
    WideNamesCollide();
    hide ApiId, Canonical;
    var zones := map[ApiId(NARROW) := LocalRule(NARROW, target)];
    assert zones[ApiId(NARROW)].name == NARROW;
  }

  lemma LowerOfA()
    ensures Canonical("A.") == "a."
  {
    assert IsTrimmed("A.") && Strip("A.") == "A.";
    assert Fold("A.") == "a.";
    assert StripDots("a.") == "a";
  }

  // ----- with canonical rule names, which saving a rule guarantees -----

  ghost predicate RulesAreCanonical(zones: Stored) {
    forall id :: id in zones && zones[id].kind == Forwarded ==> IsCanonical(zones[id].name)
  }

  lemma RuleAt(zones: Stored, name: string)
    requires RulesAreCanonical(zones) && At(zones, name).Some? && At(zones, name).value.kind == Forwarded
    ensures At(zones, name).value.name == name
  {
    hide Canonical;
  }

  /** The purpose of a sync: wanted names forward to the target unless another rule has them, and no other rule of
      ours is left. */
  lemma SyncReachesItsGoal(zones: Stored, wanted: set<string>, target: string, name: string)
    requires IsServed(zones) && RulesAreCanonical(zones) && AreServable(wanted) && IsCanonical(name)
    ensures var before := At(zones, name);
      var after := AtAfter(zones, target, ToAdd(zones, wanted), ToRemove(zones, wanted, target), name);
      && (before.Some? && IsForeign(before.value, target) ==> after == before)
      && (name in wanted && !(before.Some? && IsForeign(before.value, target)) ==> ForwardsTo(after, target))
      && (after.Some? && IsOurs(after.value, target) ==> name in wanted)
  {
    hide Canonical, ApiId, IsServerName, At, ToAdd, ToRemove, AtAfter;
    SyncSettles(zones, wanted, target, name);
    if At(zones, name).Some? && At(zones, name).value.kind == Forwarded { RuleAt(zones, name); }
  }

  /** However far a sync got, each name has what it had before or what it will end with. */
  lemma PartialSync(zones: Stored, wanted: set<string>, target: string, added: set<string>, removed: set<string>,
                    name: string)
    requires IsServed(zones) && RulesAreCanonical(zones) && AreServable(wanted) && IsCanonical(name)
    requires added <= ToAdd(zones, wanted) && removed <= ToRemove(zones, wanted, target)
    ensures var before, now := At(zones, name), AtAfter(zones, target, added, removed, name);
      && (now == before || now == Settled(before, name, name in wanted, target))
      && (before.Some? && IsForeign(before.value, target) ==> now == before)
  {
    hide ApiId, IsServerName, At, ToRemove, Canonical;
    var z := At(zones, name);
    if z.Some? && z.value.kind == Forwarded { RuleAt(zones, name); }
    RuleNamesAt(zones, name);
    RemovedAt(zones, wanted, target, name);
    assert name in added ==> name in ToAdd(zones, wanted);
  }

  /** A sync, complete or not, leaves the rule names canonical. */
  lemma StaysCanonical(zones: Stored, wanted: set<string>, target: string, added: set<string>, removed: set<string>,
                       zones': Stored)
    requires RulesAreCanonical(zones) && AreServable(wanted) && added <= ToAdd(zones, wanted)
    requires IsAfter(zones, target, added, removed, zones')
    ensures RulesAreCanonical(zones')
  {
    hide Canonical, ApiId, IsServerName, At, AtAfter;
    forall id | id in zones' && zones'[id].kind == Forwarded ensures IsCanonical(zones'[id].name) {
      var name := Canonical(zones'[id].name);
      AtIs(zones', id);
      CanonicalIdempotent(zones'[id].name);
      AfterIsRule(zones, target, added, removed, name);
      if At(zones, name).Some? && At(zones, name).value.kind == Forwarded { RuleAt(zones, name); }
    }
  }

  lemma AfterIsRule(zones: Stored, target: string, added: set<string>, removed: set<string>, name: string)
    ensures var z := AtAfter(zones, target, added, removed, name);
      z.Some? ==> z == Some(LocalRule(name, target)) || z == At(zones, name)
  {
  }

  /** Settling what is settled changes nothing. */
  lemma SettledTwice(z: Option<Zone>, name: string, isWanted: bool, target: string)
    requires z.Some? && z.value.kind == Forwarded ==> z.value.name == name
    ensures var s := Settled(z, name, isWanted, target); Settled(s, name, isWanted, target) == s
  {
  }

  /**
   A complete sync after one that stopped anywhere - or after none, or after a complete one - ends where an
   undisturbed sync from the first state would have.
   */
  lemma SyncConverges(zones: Stored, wanted: set<string>, target: string, added: set<string>, removed: set<string>,
                      zones': Stored, name: string)
    requires IsServed(zones) && RulesAreCanonical(zones) && AreServable(wanted) && IsCanonical(name)
    requires added <= ToAdd(zones, wanted) && removed <= ToRemove(zones, wanted, target)
    requires IsAfter(zones, target, added, removed, zones')
    ensures AtAfter(zones', target, ToAdd(zones', wanted), ToRemove(zones', wanted, target), name) ==
      AtAfter(zones, target, ToAdd(zones, wanted), ToRemove(zones, wanted, target), name)
  {
    hide Canonical, ApiId, IsServerName, At, ToAdd, ToRemove, AtAfter, Settled;
    SyncSettles(zones, wanted, target, name);
    SyncSettles(zones', wanted, target, name);
    PartialSync(zones, wanted, target, added, removed, name);
    if At(zones, name).Some? && At(zones, name).value.kind == Forwarded { RuleAt(zones, name); }
    SettledTwice(At(zones, name), name, name in wanted, target);
  }

  /** After a complete sync another one finds nothing to do. */
  lemma SecondSyncIsIdle(zones: Stored, wanted: set<string>, target: string, zones': Stored)
    requires IsServed(zones) && RulesAreCanonical(zones) && AreServable(wanted)
    requires IsAfter(zones, target, ToAdd(zones, wanted), ToRemove(zones, wanted, target), zones')
    ensures ToAdd(zones', wanted) == {} && ToRemove(zones', wanted, target) == {}
  {
    hide Canonical, ApiId, IsServerName, At, AtAfter, RuleNames;
    StaysCanonical(zones, wanted, target, ToAdd(zones, wanted), ToRemove(zones, wanted, target), zones');
    forall name | name in wanted ensures name in RuleNames(zones') {
      SyncSettles(zones, wanted, target, name);
      RuleNamesAt(zones', name);
      if At(zones, name).Some? && At(zones, name).value.kind == Forwarded { RuleAt(zones, name); }
    }
    forall name | name in OurNames(zones', target) ensures name in wanted {
      var id :| id in zones' && IsOurs(zones'[id], target) && zones'[id].name == name;
      AtIs(zones', id);
      SyncReachesItsGoal(zones, wanted, target, name);
    }
  }

  // ----- what every run of the client keeps -----

  lemma UpsertKeepsCanonical(zones: Stored, rule: Zone)
    requires RulesAreCanonical(zones) && IsCanonical(rule.name)
    ensures RulesAreCanonical(Upserted(zones, rule))
  {
    hide Canonical, ApiId;
  }

  lemma FewerStayCanonical(zones: Stored, zones': Stored)
    requires RulesAreCanonical(zones) && forall id :: id in zones' ==> id in zones && zones'[id] == zones[id]
    ensures RulesAreCanonical(zones')
  {
    hide Canonical;
  }

  /** What the panel asks of the recursor. */
  datatype Request =
    | SaveRule(name: string, servers: seq<string>, recursionDesired: bool)
    | DeleteRule(name: string)
    /** After a zone of this name is created or, with `remove`, deleted. */
    | Follow(zoneName: string, target: string, remove: bool)
    | Sync(names: seq<string>, target: string)

  /** The names are ones a server can hold. */
  predicate IsServable(r: Request) {
    match r
    case SaveRule(name, _, _) => AreServable({Canonical(name)})
    case DeleteRule(_) => true
    case Follow(name, _, _) => AreServable({Canonical(name)})
    case Sync(names, _) => AreServable(WantedNames(names))
  }

  /** What a request may leave, as `RecursorRequests` shows of each: the same rules, or all or part of its work. */
  ghost predicate MayLeave(zones: Stored, r: Request, zones': Stored) {
    zones' == zones ||
    match r
    case SaveRule(name, servers, rd) => zones' == Upserted(zones, Rule(Canonical(name), servers, rd))
    case DeleteRule(name) => IsDeleted(zones, name, zones')
    case Follow(name, target, remove) =>
      if remove then IsDeleted(zones, name, zones') else zones' == Upserted(zones, LocalRule(Canonical(name), target))
    case Sync(names, target) =>
      exists added, removed ::
        && added <= ToAdd(zones, WantedNames(names)) && removed <= ToRemove(zones, WantedNames(names), target)
        && IsAfter(zones, target, added, removed, zones')
  }

  ghost predicate IsDeleted(zones: Stored, name: string, zones': Stored) {
    zones' == if At(zones, Canonical(name)).Some? then Dropped(zones, Canonical(name)) else zones - {ZoneIdFor(name)}
  }

  ghost predicate IsHealthy(zones: Stored) {
    IsServed(zones) && RulesAreCanonical(zones)
  }

  lemma DeletionKeepsHealthy(zones: Stored, name: string, zones': Stored)
    requires IsHealthy(zones) && IsDeleted(zones, name, zones')
    ensures IsHealthy(zones')
  {
    hide Canonical, ApiId, IsServerName, At;
    FewerStayCanonical(zones, zones');
  }

  lemma RequestKeepsHealthy(zones: Stored, r: Request, zones': Stored)
    requires IsHealthy(zones) && IsServable(r) && MayLeave(zones, r, zones')
    ensures IsHealthy(zones')
  {
    hide Canonical, ApiId, IsServerName, Upserted, IsDeleted, RulesAreCanonical, IsServed, AtAfter, ToAdd, ToRemove, At;
    if zones' != zones {
      match r
      case SaveRule(name, servers, rd) =>
        CanonicalIdempotent(name);
        SavedStaysHealthy(zones, Rule(Canonical(name), servers, rd));
      case DeleteRule(name) => DeletionKeepsHealthy(zones, name, zones');
      case Follow(name, target, remove) =>
        CanonicalIdempotent(name);
        if remove { DeletionKeepsHealthy(zones, name, zones'); }
        else { SavedStaysHealthy(zones, LocalRule(Canonical(name), target)); }
      case Sync(names, target) =>
        var wanted := WantedNames(names);
        var added, removed :| added <= ToAdd(zones, wanted) && removed <= ToRemove(zones, wanted, target)
                              && IsAfter(zones, target, added, removed, zones');
        StaysCanonical(zones, wanted, target, added, removed, zones');
    }
  }

  lemma SavedStaysHealthy(zones: Stored, rule: Zone)
    requires IsHealthy(zones) && IsCanonical(rule.name) && rule.name != "" && IsLatin(rule.name)
    ensures IsHealthy(Upserted(zones, rule))
  {
    hide Canonical, ApiId, IsServerName, Upserted, RulesAreCanonical, IsServed;
    ServedIsKept(zones);
    UpsertIsServed(zones, rule);
    UpsertKeepsCanonical(zones, rule);
  }

  lemma ServedIsKept(zones: Stored)
    requires IsServed(zones)
    ensures IsKept(zones)
  {
  }

  /** Over any run of saves, deletions, follow-ups and syncs, whatever fails, the rules stay where a sync reaches its
      goal. */
  lemma {:induction false} RunKeepsHealthy(states: seq<Stored>, requests: seq<Request>, k: nat)
    requires |states| == |requests| + 1 && k < |states| && IsHealthy(states[0])
    requires forall i :: 0 <= i < |requests| ==>
      IsServable(requests[i]) && MayLeave(states[i], requests[i], states[i + 1])
    ensures IsHealthy(states[k])
  {
    hide IsHealthy, IsServable, MayLeave;
    if k > 0 {
      RunKeepsHealthy(states, requests, k - 1);
      RequestKeepsHealthy(states[k - 1], requests[k - 1], states[k]);
    }
  }
}
