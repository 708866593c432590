/** What the links keep over runs in which any call to the server may fail. */
module FailingRuns {
  import opened PyText
  import opened Names
  import opened RecordRules
  import opened PanelState
  import opened SyncLaws
  import opened ZoneHandlers
  import opened LinkRows
  import opened ServedPtrs
  import opened ZoneRuns

  // ----- a sync that may fail -----

  /** Whatever failed in a sync, only its own record set's links may now be out of step, and all PTRs answer. */
  lemma MaySyncKeeps(parsers: Parsers, s: Store, user: User, a: SyncArgs, s': Store, forward: set<Key>,
                     reverse: set<Key>)
    requires LinksHoldExcept(parsers, s, forward, reverse) && IsName(a.owner.name) && MaySync(parsers, s, user, a, s')
    ensures LinksHoldExcept(parsers, s', forward + {a.owner}, reverse)
  {
    hide Synced, LinksHoldExcept, IsName;
    if s' == s {
      OnlyTheseMatter(parsers, s, forward, reverse, forward + {a.owner}, reverse);
    } else {
      var written, gone :| Synced(parsers, s, user, a, s', written, gone);
      SyncedKeeps(parsers, s, user, a, s', written, gone, forward, reverse);
    }
  }

  lemma SyncedKeeps(parsers: Parsers, s: Store, user: User, a: SyncArgs, s': Store, written: set<string>,
                    gone: set<string>, forward: set<Key>, reverse: set<Key>)
    requires LinksHoldExcept(parsers, s, forward, reverse) && IsName(a.owner.name)
    requires Synced(parsers, s, user, a, s', written, gone)
    ensures LinksHoldExcept(parsers, s', forward + {a.owner}, reverse)
  {
    hide Wanted, PtrSet, Answers, IsName, LinkHolds;
    forall p | p in s'.links ensures LinkHolds(parsers, s', p, s'.links[p], forward + {a.owner}, reverse) {
      if p in written { WrittenRowHolds(parsers, s, user, a, s', written, gone, p, forward, reverse); }
      else { KeptRowHolds(parsers, s, user, a, s', written, gone, p, forward, reverse); }
    }
  }

  lemma WrittenRowHolds(parsers: Parsers, s: Store, user: User, a: SyncArgs, s': Store, written: set<string>,
                        gone: set<string>, p: string, forward: set<Key>, reverse: set<Key>)
    requires IsName(a.owner.name) && Synced(parsers, s, user, a, s', written, gone) && p in written
    ensures p in s'.links && LinkHolds(parsers, s', p, s'.links[p], forward + {a.owner}, reverse)
  {
    hide Wanted, PtrSet, CanonicalContents, Placement, CanEdit, IsName;
    var wanted := Wanted(parsers, s, user, a);
    PtrSetAnswers(a);
    WantedIs(parsers, s, user, a, p);
    LookupAfterSync(s, a, wanted, written, Retired(s, a, wanted), gone, PtrKey(wanted[p].reverseZone, p));
  }

  lemma KeptRowHolds(parsers: Parsers, s: Store, user: User, a: SyncArgs, s': Store, written: set<string>,
                     gone: set<string>, p: string, forward: set<Key>, reverse: set<Key>)
    requires Synced(parsers, s, user, a, s', written, gone) && p !in written && p in s'.links
    requires p in s.links ==> LinkHolds(parsers, s, p, s.links[p], forward, reverse)
    ensures LinkHolds(parsers, s', p, s'.links[p], forward + {a.owner}, reverse)
  {
    hide Wanted, PtrSet, CanonicalContents, IsName, PtrOf;
    var wanted, link := Wanted(parsers, s, user, a), s.links[p];
    LookupAfterSync(s, a, wanted, written, Retired(s, a, wanted), gone, Owner(link));
    LookupAfterSync(s, a, wanted, written, Retired(s, a, wanted), gone, PtrKey(link.reverseZone, p));
  }

  // ----- a save whose reverse side may fail -----

  lemma MayFollowKeeps(parsers: Parsers, s: Store, user: User, f: RecordForm, s': Store, forward: set<Key>,
                       reverse: set<Key>)
    requires LinksHoldExcept(parsers, s, forward, reverse) && Touched(f) <= forward
    requires MayFollow(parsers, s, user, f, s')
    requires IsName(f.Name()) && IsName(f.OldKey().name)
    ensures LinksHoldExcept(parsers, s', forward, reverse)
  {
    hide LinksHoldExcept, MaySync, IsName, Canonical, AbsoluteName, ValidTtl, Fields, RecordsOf;
    if f.rtype in ADDRESS_TYPES || f.IsRename() {
      var t :| MayRetire(parsers, s, user, f.Sync(), Previous(f), t) && MaySync(parsers, t, user, f.Sync(), s');
      if t != s { MaySyncKeeps(parsers, s, user, Retire(f.OldKey(), f.Ttl()), t, forward, reverse); }
      assert f.IsRename() ==> forward + {f.OldKey()} == forward;
      MaySyncKeeps(parsers, t, user, f.Sync(), s', forward, reverse);
      assert forward + {f.Key()} == forward;
    }
  }

  /** A sync for a record set that wants no PTR leaves the PTR sets of all links that stay. */
  lemma MaySyncKeepsPtrs(parsers: Parsers, s: Store, user: User, a: SyncArgs, s': Store, p: string)
    requires Wanted(parsers, s, user, a) == map[] && MaySync(parsers, s, user, a, s')
    ensures p in s'.links ==> p in s.links && forall k: Key :: k.name == p ==> Lookup(s', k) == Lookup(s, k)
  {
    hide Wanted, PtrSet, Answers;
    if s' != s && p in s'.links {
      var written, gone :| Synced(parsers, s, user, a, s', written, gone);
      forall k: Key | k.name == p ensures Lookup(s', k) == Lookup(s, k) {
        LookupAfterSync(s, a, map[], {}, Retired(s, a, map[]), gone, k);
      }
    }
  }

  lemma EditedPtrStays(parsers: Parsers, s: Store, user: User, f: RecordForm, s': Store)
    requires f.rtype == "PTR" && Lookup(s, f.Key()) == Some(f.Set()) && MayFollow(parsers, s, user, f, s')
    ensures f.Name() in s'.links ==> Lookup(s', f.Key()) == Some(f.Set())
  {
    hide MaySync, Wanted, Lookup, Canonical, AbsoluteName, ValidTtl, Fields, RecordsOf;
    if f.IsRename() {
      var t :| MayRetire(parsers, s, user, f.Sync(), Previous(f), t) && MaySync(parsers, t, user, f.Sync(), s');
      NothingWanted(parsers, s, user, f.OldKey(), f.Ttl());
      PtrsWantNothing(parsers, t, user, f);
      MaySyncKeepsPtrs(parsers, s, user, Retire(f.OldKey(), f.Ttl()), t, f.Name());
      MaySyncKeepsPtrs(parsers, t, user, f.Sync(), s', f.Name());
    }
  }

  /** After a save, whatever failed on its reverse side, at most the forward sets it touched are out of step. */
  lemma SaveMayKeep(parsers: Parsers, s: Store, user: User, f: RecordForm, s': Store, forward: set<Key>,
                    reverse: set<Key>)
    requires LinksHoldExcept(parsers, s, forward, reverse) && f.Zone() in s.zones
    requires MayFinish(parsers, Written(s, f), user, f, s')
    ensures LinksHoldExcept(parsers, s', forward + Touched(f), reverse)
  {
    hide LinksHoldExcept, MayFollow, Written, Unlinked, IsName, Lookup, Touched;
    hide Canonical, AbsoluteName, Fields, ValidTtl, RecordsOf;
    var t :| MayFollow(parsers, Written(s, f), user, f, t) && s' == Unlinked(t, f);
    ZonesAreNames(parsers, s, forward, reverse);
    FormNames(s.zones, f);
    WrittenHolds(parsers, s, f, forward, reverse);
    MayFollowKeeps(parsers, Written(s, f), user, f, t, forward + Touched(f), reverse + Touched(f));
    if f.rtype == "PTR" { EditedPtrStays(parsers, Written(s, f), user, f, t); }
    UnlinkedHolds(parsers, t, f, forward + Touched(f), reverse);
  }

  lemma DeleteMayKeep(parsers: Parsers, s: Store, user: User, k: Key, ttl: int, s': Store, forward: set<Key>,
                      reverse: set<Key>)
    requires LinksHoldExcept(parsers, s, forward, reverse) && IsName(k.name) && MayDelete(parsers, s, user, k, ttl, s')
    ensures LinksHoldExcept(parsers, s', forward + {k}, reverse)
  {
    hide LinksHoldExcept, MaySync, IsName, Forgotten;
    var without, more := Without(s, k), reverse + {k};
    OneSetChanged(parsers, s, without, k, forward, reverse);
    if k.rtype in ADDRESS_TYPES {
      MaySyncKeeps(parsers, without, user, Retire(k, ttl), s', forward + {k}, more);
      OnlyTheseMatter(parsers, s', forward + {k} + {k}, more, forward + {k}, reverse);
    } else if k.rtype == "PTR" {
      ForgetKeeps(parsers, without, k.name, forward + {k}, more, reverse);
    } else {
      OnlyTheseMatter(parsers, s', forward + {k}, more, forward + {k}, reverse);
    }
  }

  lemma SettingsMayKeep(parsers: Parsers, s: Store, zone: string, f: SettingsForm, s': Store, forward: set<Key>,
                        reverse: set<Key>)
    requires LinksHoldExcept(parsers, s, forward, reverse) && forall z :: z in f.created ==> IsCanonical(z)
    requires s' == WithNameservers(s, zone, f) || MaySettle(s, zone, f, s')
    ensures LinksHoldExcept(parsers, s', forward, reverse)
  {
    hide LinksHoldExcept, MayCreate, ApexWritten, WithNameservers, AllCanonical, IsCanonical, Paired;
    ApexKeeps(parsers, s, zone, f, forward, reverse);
    if s' != WithNameservers(s, zone, f) {
      var t :| MayCreate(ApexWritten(s, zone, f), f.created, t)
               && s' == Paired(t, zone, AllCanonical(f.ticked + f.created));
      CreateKeeps(parsers, ApexWritten(s, zone, f), f.created, t, forward, reverse);
      PairedKeeps(parsers, t, zone, AllCanonical(f.ticked + f.created), forward, reverse);
    }
  }

  // ----- runs -----

  /** What a request may lead to: nothing, all of its work, or as much of it as went through. */
  ghost predicate MayHappen(parsers: Parsers, s: Store, e: Event, s': Store) {
    s' == s || (IsDone(parsers, s, e) &&
      match e
      case Save(user, f, _) =>
        MayFinish(parsers, Written(s, f), user, f, s') || (f.IsRename() && s' == Without(s, f.OldKey()))
      case Delete(user, k, ttl) => MayDelete(parsers, s, user, k, ttl, s')
      case DropZone(zone) => s' == ZoneDeleted(s, zone)
      case Settings(_, zone, f) =>
        MaySettle(s, zone, f, s') || (!f.isSlave && s' == WithNameservers(s, zone, f))
      case Create(zones, _) => MayCreate(s, zones, s'))
  }

  ghost predicate MayRun(parsers: Parsers, s: Store, events: seq<Event>, s': Store)
    decreases |events|
  {
    if events == [] then s' == s
    else exists t :: MayHappen(parsers, s, events[0], t) && MayRun(parsers, t, events[1..], s')
  }

  // ----- what a run leaves to be done -----

  /** What may be out of step: forward sets whose last request was cut short, PTR sets that went missing in half a
      rename, and PTR sets that were disabled by hand. */
  datatype Debt = Debt(stale: set<Key>, astray: set<Key>, dark: set<Key>)

  /** Apart from that, every link ties an enabled PTR set that is exactly its forward name to a live, enabled address
      set that lists its address; and its own PTR name is that of its address in any case. */
  ghost predicate InStep(parsers: Parsers, s: Store, d: Debt) {
    && LinksHoldExcept(parsers, s, d.stale, d.astray)
    && forall p :: p in s.links && PtrKey(s.links[p].reverseZone, p) !in d.dark ==>
         IsEnabled(s, PtrKey(s.links[p].reverseZone, p))
  }

  /** The key is that of a link's PTR set. */
  predicate IsLinkedPtr(s: Store, k: Key) {
    k.name in s.links && k == PtrKey(s.links[k.name].reverseZone, k.name)
  }

  /** A linked PTR set was deleted to be renamed, and the new one was not written. */
  predicate IsHalfRename(s: Store, e: Event, s': Store) {
    e.Save? && e.form.IsRename() && s' == Without(s, e.form.OldKey()) && IsLinkedPtr(s, e.form.OldKey())
  }

  function HalfRenamed(s: Store, e: Event, s': Store): set<Key> {
    if IsHalfRename(s, e, s') then {e.form.OldKey()} else {}
  }

  /** A linked PTR set is now the one of this form, which disables it. */
  predicate IsDarkened(e: Event, s': Store) {
    e.Save? && IsLinkedPtr(s', e.form.Key()) && IsDisabledBy(s', e.form, e.form.Key())
  }

  /** The forward sets out of step after a request: one that did all its work settles those it touched, stale or not. */
  ghost function StaleAfter(parsers: Parsers, s: Store, stale: set<Key>, e: Event, s': Store): set<Key> {
    if IsDone(parsers, s, e) && s' == Next(parsers, s, e) then stale - Settles(e)
    else if s' == s then stale
    else stale + Settles(e)
  }

  /** Of some PTR sets, those that still are a link's and that nothing was done about. */
  function Untouched(s: Store, s': Store, keys: set<Key>): set<Key> {
    set k | k in keys && IsLinkedPtr(s', k) && IsUntouched(s, s', k.name)
  }

  /** A PTR set that is written, or whose link goes or changes, is settled by that. */
  ghost function DebtAfter(parsers: Parsers, s: Store, d: Debt, e: Event, s': Store): Debt {
    Debt(StaleAfter(parsers, s, d.stale, e, s'),
         Untouched(s, s', d.astray) + HalfRenamed(s, e, s'),
         Untouched(s, s', d.dark) + (if IsDarkened(e, s') then {e.form.Key()} else {}))
  }

  /** A run, and what it leaves to be done. */
  ghost predicate IsTracked(parsers: Parsers, s: Store, d: Debt, events: seq<Event>, s': Store, d': Debt)
    decreases |events|
  {
    if events == [] then s' == s && d' == d
    else
      exists t :: MayHappen(parsers, s, events[0], t)
        && IsTracked(parsers, t, DebtAfter(parsers, s, d, events[0], t), events[1..], s', d')
  }

  lemma MayStepKeeps(parsers: Parsers, s: Store, stale: set<Key>, astray: set<Key>, e: Event, s': Store)
    requires LinksHoldExcept(parsers, s, stale, astray) && MayHappen(parsers, s, e, s') && s' != s
    ensures LinksHoldExcept(parsers, s', stale + Settles(e), astray + HalfRenamed(s, e, s'))
  {
    hide LinksHoldExcept, MayFinish, MayDelete, MayCreate, MaySettle, Written, ZoneDeleted, Selectable, AllCanonical;
    hide WithNameservers, IsSavable, IsCanonical, Canonical, AbsoluteName, IsHalfRename;
    if e.Save? && !MayFinish(parsers, Written(s, e.form), e.user, e.form, s') {
      HalfRenameKeeps(parsers, s, e, stale, astray);
    } else {
      MayStepKeepsAll(parsers, s, stale, astray, e, s');
      OnlyTheseMatter(parsers, s', stale + Settles(e), astray, stale + Settles(e),
                      astray + HalfRenamed(s, e, s'));
    }
  }

  lemma MayStepKeepsAll(parsers: Parsers, s: Store, stale: set<Key>, astray: set<Key>, e: Event, s': Store)
    requires LinksHoldExcept(parsers, s, stale, astray) && MayHappen(parsers, s, e, s') && s' != s
    requires e.Save? ==> MayFinish(parsers, Written(s, e.form), e.user, e.form, s')
    ensures LinksHoldExcept(parsers, s', stale + Settles(e), astray)
  {
    hide LinksHoldExcept, MayFinish, MayDelete, MayCreate, MaySettle, Written, ZoneDeleted, Selectable, AllCanonical;
    hide WithNameservers, IsSavable, IsCanonical, Canonical, AbsoluteName;
    assert stale + {} == stale;
    match e
    case Save(user, f, _) => SaveMayKeep(parsers, s, user, f, s', stale, astray);
    case Delete(user, k, ttl) => DeleteMayKeep(parsers, s, user, k, ttl, s', stale, astray);
    case DropZone(zone) => DropZoneKeeps(parsers, s, zone, stale, astray);
    case Settings(_, zone, f) => SettingsMayKeep(parsers, s, zone, f, s', stale, astray);
    case Create(zones, _) => CreateKeeps(parsers, s, zones, s', stale, astray);
  }

  lemma HalfRenameKeeps(parsers: Parsers, s: Store, e: Event, stale: set<Key>, astray: set<Key>)
    requires LinksHoldExcept(parsers, s, stale, astray) && e.Save? && e.form.IsRename()
    ensures var s' := Without(s, e.form.OldKey());
      LinksHoldExcept(parsers, s', stale + Touched(e.form), astray + HalfRenamed(s, e, s'))
  {
    hide IsLinkRow, CanonicalContents, IsName, Canonical, AbsoluteName;
    var s' := Without(s, e.form.OldKey());
    var more := astray + HalfRenamed(s, e, s');
    forall p | p in s'.links ensures LinkHolds(parsers, s', p, s'.links[p], stale + Touched(e.form), more) {
      assert LinkHolds(parsers, s, p, s.links[p], stale, astray);
    }
  }

  /** After a request, whatever failed, a link is untouched, or its PTR answers and is enabled - unless the request was
      half a rename of that very PTR set, or disabled it. */
  lemma StepServes(parsers: Parsers, s: Store, e: Event, s': Store, ptr: string)
    requires AreNames(s.zones) && MayHappen(parsers, s, e, s') && ptr in s'.links
    ensures var link := s'.links[ptr];
      var k := PtrKey(link.reverseZone, ptr);
      || IsUntouched(s, s', ptr)
      || (IsHalfRename(s, e, s') && k == e.form.OldKey() && Lookup(s', k) == None)
      || (Answers(s', ptr, link) && (IsEnabled(s', k) || (IsDarkened(e, s') && k == e.form.Key())))
  {
    hide MayFinish, MayDelete, MayCreate, ApexWritten, WithNameservers, Written, ZoneDeleted, Selectable, AllCanonical;
    hide IsSavable, IsName, Canonical, AbsoluteName, Answers, IsEnabled, IsDisabledBy;
    if s' != s {
      match e
      case Save(user, f, _) =>
        if MayFinish(parsers, Written(s, f), user, f, s') {
          FormNames(s.zones, f);
          SaveServes(parsers, s, user, f, s', ptr);
          DisabledKey(s', f);
        }
      case Delete(user, k, ttl) => DeleteServes(parsers, s, user, k, ttl, s', ptr);
      case DropZone(zone) => DropZoneLeavesRest(s, zone, ptr);
      case Settings(_, zone, f) =>
        NameserversLeavePtrs(s, zone, f, ptr);
        if s' != WithNameservers(s, zone, f) {
          var t :| MayCreate(ApexWritten(s, zone, f), f.created, t)
                   && s' == Paired(t, zone, AllCanonical(f.ticked + f.created));
          CreateLeavesPtrs(ApexWritten(s, zone, f), f.created, t, ptr);
          assert ptr in s.links;
        }
      case Create(zones, _) => CreateLeavesPtrs(s, zones, s', ptr);
    }
  }

  lemma DisabledKey(s: Store, f: RecordForm)
    ensures forall k :: IsDisabledBy(s, f, k) ==> k == f.Key()
  {
  }

  lemma DropZoneLeavesRest(s: Store, zone: string, ptr: string)
    requires ptr in ZoneDeleted(s, zone).links
    ensures IsUntouched(s, ZoneDeleted(s, zone), ptr)
  {
  }

  lemma CreateLeavesPtrs(s: Store, zones: seq<string>, s': Store, ptr: string)
    requires MayCreate(s, zones, s') && ptr in s'.links
    ensures s'.links == s.links && IsUntouched(s, s', ptr)
  {
    hide Lookup;
  }

  lemma NameserversLeavePtrs(s: Store, zone: string, f: SettingsForm, ptr: string)
    ensures WithNameservers(s, zone, f).links == ApexWritten(s, zone, f).links == s.links
    ensures ptr in s.links ==>
      IsUntouched(s, WithNameservers(s, zone, f), ptr) && IsUntouched(s, ApexWritten(s, zone, f), ptr)
  {
    hide StoredSoa, AllCanonical, RecordsOf;
  }

  lemma StepTracks(parsers: Parsers, s: Store, d: Debt, e: Event, s': Store)
    requires InStep(parsers, s, d) && MayHappen(parsers, s, e, s')
    ensures InStep(parsers, s', DebtAfter(parsers, s, d, e, s'))
  {
    hide LinksHoldExcept, IsDone, Next, MayHappen, Settles, IsHalfRename, IsDarkened, IsEnabled, Answers, IsUntouched;
    var d' := DebtAfter(parsers, s, d, e, s');
    var half := HalfRenamed(s, e, s');
    ZonesAreNames(parsers, s, d.stale, d.astray);
    if IsDone(parsers, s, e) && s' == Next(parsers, s, e) {
      StepSettles(parsers, s, e, d.stale, d.astray);
      OnlyTheseMatter(parsers, s', d'.stale, d.astray, d'.stale, d.astray + half);
    } else if s' == s {
      OnlyTheseMatter(parsers, s, d.stale, d.astray, d.stale, d.astray + half);
    } else {
      MayStepKeeps(parsers, s, d.stale, d.astray, e, s');
    }
    forall p | p in s'.links
      ensures LinkHolds(parsers, s', p, s'.links[p], d'.stale, d'.astray)
      ensures PtrKey(s'.links[p].reverseZone, p) in d'.dark || IsEnabled(s', PtrKey(s'.links[p].reverseZone, p))
    {
      StepServes(parsers, s, e, s', p);
      OneRowTracks(parsers, s, d, e, s', p, half);
    }
    StillNames(parsers, s', d'.stale, d.astray + half, d'.astray);
  }

  /** One row at a time: a PTR set that was left alone owes what it did, and one that was not serves or owes anew. */
  lemma OneRowTracks(parsers: Parsers, s: Store, d: Debt, e: Event, s': Store, p: string, half: set<Key>)
    requires InStep(parsers, s, d) && p in s'.links
    requires half == HalfRenamed(s, e, s')
    requires LinksHoldExcept(parsers, s', StaleAfter(parsers, s, d.stale, e, s'), d.astray + half)
    requires var link := s'.links[p];
      var k := PtrKey(link.reverseZone, p);
      || IsUntouched(s, s', p)
      || (IsHalfRename(s, e, s') && k == e.form.OldKey() && Lookup(s', k) == None)
      || (Answers(s', p, link) && (IsEnabled(s', k) || (IsDarkened(e, s') && k == e.form.Key())))
    ensures var d' := DebtAfter(parsers, s, d, e, s');
      && LinkHolds(parsers, s', p, s'.links[p], d'.stale, d'.astray)
      && (PtrKey(s'.links[p].reverseZone, p) in d'.dark || IsEnabled(s', PtrKey(s'.links[p].reverseZone, p)))
  {
    hide StaleAfter, IsHalfRename, IsDarkened, Answers, Lists, IsLinkRow;
    var link := s'.links[p];
    assert LinkHolds(parsers, s', p, link, StaleAfter(parsers, s, d.stale, e, s'), d.astray + half);
  }

  lemma StillNames(parsers: Parsers, s: Store, stale: set<Key>, astray: set<Key>, astray': set<Key>)
    requires LinksHoldExcept(parsers, s, stale, astray)
    requires forall p :: p in s.links ==> LinkHolds(parsers, s, p, s.links[p], stale, astray')
    ensures LinksHoldExcept(parsers, s, stale, astray')
  {
    hide LinkHolds;
  }

  /**
   Over any run in which any calls fail, every link is under the PTR name of its address. Its PTR set is exactly its
   forward name, unless half a rename has deleted it and nothing has been done about it since; it is enabled, unless it
   was disabled by hand; and its forward set lists its address, unless the last request for that set was cut short.
   */
  lemma {:induction false} FailingRunKeepsLinks(parsers: Parsers, s: Store, d: Debt, events: seq<Event>, s': Store,
                                                d': Debt)
    requires InStep(parsers, s, d) && IsTracked(parsers, s, d, events, s', d')
    ensures InStep(parsers, s', d')
    decreases |events|
  {
    hide InStep, MayHappen, DebtAfter;
    if events != [] {
      var t :| MayHappen(parsers, s, events[0], t)
        && IsTracked(parsers, t, DebtAfter(parsers, s, d, events[0], t), events[1..], s', d');
      StepTracks(parsers, s, d, events[0], t);
      FailingRunKeepsLinks(parsers, t, DebtAfter(parsers, s, d, events[0], t), events[1..], s', d');
    }
  }

  /** Every run can be tracked, whatever it starts from. */
  lemma {:induction false} RunIsTracked(parsers: Parsers, s: Store, d: Debt, events: seq<Event>, s': Store)
    requires MayRun(parsers, s, events, s')
    ensures exists d' :: IsTracked(parsers, s, d, events, s', d')
    decreases |events|
  {
    hide MayHappen, DebtAfter;
    if events == [] {
      assert IsTracked(parsers, s, d, events, s', d);
    } else {
      var t :| MayHappen(parsers, s, events[0], t) && MayRun(parsers, t, events[1..], s');
      var next := DebtAfter(parsers, s, d, events[0], t);
      RunIsTracked(parsers, t, next, events[1..], s');
      var d' :| IsTracked(parsers, t, next, events[1..], s', d');
      assert IsTracked(parsers, s, d, events, s', d');
    }
  }

  // ----- the reverse side alone -----

  /** Every link is one of an address record, under the PTR name of its address, and its PTR answers with its name. */
  ghost predicate RowsHold(parsers: Parsers, s: Store) {
    && AreNames(s.zones)
    && forall p :: p in s.links ==> IsLinkRow(parsers, p, s.links[p]) && Answers(s, p, s.links[p])
  }

  lemma RowsHoldApart(parsers: Parsers, s: Store, stale: set<Key>)
    ensures LinksHoldExcept(parsers, s, stale, {}) ==> RowsHold(parsers, s)
    ensures RowsHold(parsers, s) && (forall p :: p in s.links ==> Owner(s.links[p]) in stale) ==>
      LinksHoldExcept(parsers, s, stale, {})
  {
    hide IsLinkRow, Answers, Lists, IsName;
    if LinksHoldExcept(parsers, s, stale, {}) {
      forall p | p in s.links ensures IsLinkRow(parsers, p, s.links[p]) && Answers(s, p, s.links[p]) {
        assert LinkHolds(parsers, s, p, s.links[p], stale, {});
      }
    }
  }

  /** A run in which no rename of a linked PTR set stops half-way. */
  ghost predicate IsWholeRun(parsers: Parsers, s: Store, events: seq<Event>, s': Store)
    decreases |events|
  {
    if events == [] then s' == s
    else
      exists t :: MayHappen(parsers, s, events[0], t) && !IsHalfRename(s, events[0], t)
        && IsWholeRun(parsers, t, events[1..], s')
  }

  lemma StepKeepsRows(parsers: Parsers, s: Store, e: Event, s': Store)
    requires RowsHold(parsers, s) && MayHappen(parsers, s, e, s') && !IsHalfRename(s, e, s')
    ensures RowsHold(parsers, s')
  {
    hide RowsHold, LinksHoldExcept, IsEnabled, MayHappen, StaleAfter, IsHalfRename, IsDarkened;
    var stale := set p | p in s.links :: Owner(s.links[p]);
    var d := Debt(stale, {}, set p | p in s.links :: PtrKey(s.links[p].reverseZone, p));
    RowsHoldApart(parsers, s, stale);
    StepTracks(parsers, s, d, e, s');
    var d' := DebtAfter(parsers, s, d, e, s');
    assert d'.astray == {};
    RowsHoldApart(parsers, s', d'.stale);
  }

  /** Whatever fails in a run, but for half a rename of a linked PTR set, every link keeps its name and its PTR
      answers. */
  lemma {:induction false} FailingRunKeepsRows(parsers: Parsers, s: Store, events: seq<Event>, s': Store)
    requires RowsHold(parsers, s) && IsWholeRun(parsers, s, events, s')
    ensures RowsHold(parsers, s')
    decreases |events|
  {
    hide RowsHold, MayHappen, IsHalfRename;
    if events != [] {
      var t :| MayHappen(parsers, s, events[0], t) && !IsHalfRename(s, events[0], t)
        && IsWholeRun(parsers, t, events[1..], s');
      StepKeepsRows(parsers, s, events[0], t);
      FailingRunKeepsRows(parsers, t, events[1..], s');
    }
  }

  /** What runs without failures keep implies what runs with failures keep. */
  lemma LinksHoldIsStronger(parsers: Parsers, s: Store)
    requires LinksHold(parsers, s)
    ensures LinksHoldExcept(parsers, s, {}, {}) && RowsHold(parsers, s)
  {
    hide RowsHold;
    RowsHoldApart(parsers, s, {});
  }

  // ----- runs without failures are among those -----

  lemma SavedMayFinish(parsers: Parsers, written: Store, user: User, f: RecordForm)
    ensures MayFinish(parsers, written, user, f, Finished(parsers, written, user, f))
  {
    hide CleanSync, Synced, Wanted, StillOurs, Canonical, AbsoluteName, ValidTtl, Fields, RecordsOf, Unlinked;
    var t := Resynced(parsers, written, user, f);
    if f.rtype in ADDRESS_TYPES || f.IsRename() {
      var retired := if f.IsRename() then CleanSync(parsers, written, user, Retire(f.OldKey(), f.Ttl())) else written;
      CleanMayBe(parsers, written, user, Retire(f.OldKey(), f.Ttl()));
      CleanMayBe(parsers, retired, user, f.Sync());
      assert MayRetire(parsers, written, user, f.Sync(), Previous(f), retired);
    }
    assert MayFollow(parsers, written, user, f, t);
  }

  lemma CleanMayBe(parsers: Parsers, s: Store, user: User, a: SyncArgs)
    ensures MaySync(parsers, s, user, a, CleanSync(parsers, s, user, a))
  {
    hide CleanSync, Synced, Wanted;
    CleanIsSynced(parsers, s, user, a);
  }

  lemma NextMayHappen(parsers: Parsers, s: Store, e: Event)
    requires IsDone(parsers, s, e)
    ensures MayHappen(parsers, s, e, Next(parsers, s, e))
  {
    hide MayFinish, CleanSync, MaySync, MayCreate, CreatedZones, Written, Finished, ZoneDeleted, ApexWritten,
         AllCanonical, Selectable, IsSavable, IsCanonical;
    match e
    case Save(user, f, _) => SavedMayFinish(parsers, Written(s, f), user, f);
    case Delete(user, k, ttl) => CleanMayBe(parsers, Without(s, k), user, Retire(k, ttl));
    case DropZone(zone) =>
    case Settings(_, zone, f) =>
      CreatedMayBe(ApexWritten(s, zone, f), f.created, if f.isSlave then [] else AllCanonical(f.nameservers));
    case Create(zones, nameservers) => CreatedMayBe(s, zones, nameservers);
  }

  /** What any failures may lead to includes what happens when none do. */
  lemma {:induction false} CleanRunMayBe(parsers: Parsers, s: Store, events: seq<Event>, s': Store)
    requires IsRun(parsers, s, events, s')
    ensures MayRun(parsers, s, events, s')
    decreases |events|
  {
    hide IsDone, Next, MayHappen;
    if events != [] {
      NextMayHappen(parsers, s, events[0]);
      CleanRunMayBe(parsers, Next(parsers, s, events[0]), events[1..], s');
    }
  }

  // ----- what runs without failures keep served -----

  /** In step, and every linked PTR set is enabled: what a resolver gets for the address is the link's name. */
  ghost predicate LinksServe(parsers: Parsers, s: Store) {
    && LinksHold(parsers, s)
    && forall p :: p in s.links ==> IsEnabled(s, PtrKey(s.links[p].reverseZone, p))
  }

  /** The request saves a linked PTR set disabled. */
  predicate Darkens(s: Store, e: Event) {
    e.Save? && Disables(e.form, e.form.Key()) && IsLinkedPtr(s, e.form.Key())
  }

  lemma StepServesLinks(parsers: Parsers, s: Store, e: Event)
    requires LinksServe(parsers, s) && IsDone(parsers, s, e) && !Darkens(s, e)
    ensures LinksServe(parsers, Next(parsers, s, e))
  {
    hide LinksHold, IsDone, Next, MayHappen, IsHalfRename, IsDarkened, IsEnabled, Answers, AreNames;
    var s' := Next(parsers, s, e);
    StepKeepsLinks(parsers, s, e);
    NextMayHappen(parsers, s, e);
    HoldsNames(parsers, s);
    forall p | p in s'.links ensures IsEnabled(s', PtrKey(s'.links[p].reverseZone, p)) {
      StepServes(parsers, s, e, s', p);
      if IsDarkened(e, s') { DarkenedWasLinked(parsers, s, e); }
      SameSetSameState(s, s', PtrKey(s'.links[p].reverseZone, p));
    }
  }

  lemma HoldsNames(parsers: Parsers, s: Store)
    requires LinksHold(parsers, s)
    ensures AreNames(s.zones)
  {
  }

  lemma SameSetSameState(s: Store, s': Store, k: Key)
    ensures Lookup(s', k) == Lookup(s, k) ==> IsEnabled(s', k) == IsEnabled(s, k)
    ensures Lookup(s', k) == None ==> IsEnabled(s', k)
  {
  }

  lemma DarkenedWasLinked(parsers: Parsers, s: Store, e: Event)
    requires IsDone(parsers, s, e) && IsDarkened(e, Next(parsers, s, e))
    ensures Darkens(s, e)
  {
    hide MayFinish, Finished, Written, IsSavable, Lookup, Canonical, AbsoluteName;
    SavedMayFinish(parsers, Written(s, e.form), e.user, e.form);
    PtrFormKeepsRows(parsers, s, e.user, e.form, Next(parsers, s, e), e.form.Name());
  }

  /** A run in which no linked PTR set is saved disabled. */
  ghost predicate IsServingRun(parsers: Parsers, s: Store, events: seq<Event>, s': Store)
    decreases |events|
  {
    if events == [] then s' == s
    else
      && IsDone(parsers, s, events[0]) && !Darkens(s, events[0])
      && IsServingRun(parsers, Next(parsers, s, events[0]), events[1..], s')
  }

  /** In every state such a run reaches, each link ties an enabled PTR set that is exactly its forward name to a live,
      enabled address set that lists its address. */
  lemma {:induction false} RunServesLinks(parsers: Parsers, s: Store, events: seq<Event>, s': Store)
    requires LinksServe(parsers, s) && IsServingRun(parsers, s, events, s')
    ensures LinksServe(parsers, s')
    decreases |events|
  {
    hide LinksServe, IsDone, Next, Darkens;
    if events != [] {
      StepServesLinks(parsers, s, events[0]);
      RunServesLinks(parsers, Next(parsers, s, events[0]), events[1..], s');
    }
  }
}
