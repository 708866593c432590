/** Small stores on which the guarantees about linked PTRs are seen to stop. */
module LinkExamples {
  import opened PyText
  import opened PyNumbers
  import opened Names
  import opened Powers
  import opened DottedNames
  import opened ReverseNames
  import opened EnclosingZones
  import opened RecordRules
  import opened PanelState
  import opened SyncLaws
  import opened ZoneHandlers
  import opened LinkRows
  import opened ServedPtrs
  import opened FailingRuns
  import opened LinkLimits
  import opened ZoneRules

  const HOST := Ip(V4, 1)
  const TEXT := "0.0.0.1"
  const FORWARD := "a."
  const OPERATOR := User("op", true, {})

  /** A library that reads every text as the one address. */
  function OneAddress(): Parsers {
    HostIsIp();
    Parsers(_ => true, (_, _) => true, _ => Some(HOST))
  }

  lemma HostIsIp()
    ensures IsIp(HOST)
  {
    PowPositive(2, 31);
    assert Pow(2, 32) == 2 * Pow(2, 31);
  }

  /** The address's PTR name, the /24 zone it belongs to, and the /16 zone around that. */
  function Ptr(): string { PtrName(HOST) }

  function Near(): string { ZoneName(HOST, 24) }

  function Wide(): string { ZoneName(HOST, 16) }

  lemma NamesAreNames()
    ensures IsName(FORWARD) && IsName(Ptr()) && IsName(Near()) && IsName(Wide())
    ensures InZone(Ptr(), Near()) && InZone(Ptr(), Wide()) && Ptr() != Near() && Near() != Wide() && Near() != FORWARD
    ensures Wide() != FORWARD
  {
    hide PtrName, ZoneName, Canonical, InZone;
    CanonicalIffShape(FORWARD);
    ZoneNameIsCanonical(HOST, 24);
    ZoneNameIsCanonical(HOST, 16);
    HostIsIp();
    ZoneHolds(HOST, HOST, 24);
    ZoneHolds(HOST, HOST, 16);
    NamesDiffer();
  }

  lemma NamesDiffer()
    ensures Ptr() != Near() && Near() != Wide() && Near() != FORWARD && Wide() != FORWARD && Ptr() != ""
  {
    hide Dotted, ZoneName, BodyLabels;
    var p, n, w := BodyLabels(HOST) + SuffixLabels(V4), ZoneLabels(HOST, 24), ZoneLabels(HOST, 16);
    ZoneNameIsDotted(HOST, 24);
    ZoneNameIsDotted(HOST, 16);
    LabelsAreLabels(HOST);
    assert forall l :: l in n || l in w ==> l in p;
    FirstLabelIs();
    if Ptr() == Near() { DottedInjective(p, n); }
    if Near() == Wide() { DottedInjective(n, w); }
    if Near() == FORWARD { DottedInjective(n, ["a"]); }
    if Wide() == FORWARD { DottedInjective(w, ["a"]); }
    if Ptr() == "" { DottedInjective(p, []); }
  }

  lemma FirstLabelIs()
    ensures Dotted(["a"]) == FORWARD && Dotted([]) == ""
  {
  }

  /** One address record whose PTR is linked, in the zone given. */
  function Linked(reverse: string): Store {
    Store({FORWARD, Near(), Wide()},
          map[Key(FORWARD, FORWARD, "A") := RRset(300, [Record(TEXT, false)], ""),
              PtrKey(reverse, Ptr()) := RRset(300, [Record(FORWARD, false)], "")],
          map[Ptr() := Link(FORWARD, FORWARD, "A", TEXT, reverse)],
          {(FORWARD, Near())})
  }

  lemma LinkedHolds(reverse: string)
    requires reverse in {Near(), Wide()}
    ensures LinksHold(OneAddress(), Linked(reverse)) && Lists(Linked(reverse), Linked(reverse).links[Ptr()])
    ensures Answers(Linked(reverse), Ptr(), Linked(reverse).links[Ptr()])
  {
    hide Ptr, Near, Wide, IsName, Lists, Answers, Canonical, PtrOf;
    var s := Linked(reverse);
    NamesAreNames();
    assert IsCanonical(FORWARD) by { CanonicalIffShape(FORWARD); }
    LinkedAnswers(reverse);
    LinkedLists(reverse);
    AddressIsRead();
    assert LinkHolds(OneAddress(), s, Ptr(), s.links[Ptr()], {}, {});
  }

  lemma LinkedLists(reverse: string)
    ensures Lists(Linked(reverse), Linked(reverse).links[Ptr()])
  {
    hide Ptr, Near, Wide;
    var k, set_ := Key(FORWARD, FORWARD, "A"), RRset(300, [Record(TEXT, false)], "");
    assert Lookup(Linked(reverse), k) == Some(set_) && set_.records[0] == Record(TEXT, false);
  }

  lemma LinkedAnswers(reverse: string)
    requires IsCanonical(FORWARD)
    ensures Answers(Linked(reverse), Ptr(), Linked(reverse).links[Ptr()])
  {
    hide Ptr, Near, Wide, Canonical;
    var set_ := RRset(300, [Record(FORWARD, false)], "");
    assert Lookup(Linked(reverse), PtrKey(reverse, Ptr())) == Some(set_);
    assert CanonicalContents(set_) == [FORWARD];
  }

  lemma AddressIsRead()
    ensures PtrOf(OneAddress(), TEXT) == Some(Ptr())
  {
    hide PtrName;
  }

  // ----- half a rename -----

  /** Deleting the address set and failing to write the new one leaves a link without its record. */
  lemma HalfRenameBreaksLinks()
    ensures var s := Linked(Near());
      LinksHold(OneAddress(), s) && !LinksHold(OneAddress(), Without(s, Key(FORWARD, FORWARD, "A")))
  {
    hide Ptr, Near, Wide, LinksHold;
    LinkedHolds(Near());
    var s := Linked(Near());
    HalfRenameHoldsIff(OneAddress(), s, Key(FORWARD, FORWARD, "A"));
    assert Owner(s.links[Ptr()]) == Key(FORWARD, FORWARD, "A");
  }

  /** Doing so to the PTR set leaves one that does not answer. */
  lemma HalfRenameBreaksRows()
    ensures var s := Linked(Near());
      RowsHold(OneAddress(), s) && !RowsHold(OneAddress(), Without(s, PtrKey(Near(), Ptr())))
  {
    hide Ptr, Near, Wide, LinksHold, RowsHold;
    LinkedHolds(Near());
    var s := Linked(Near());
    LinksHoldIsStronger(OneAddress(), s);
    HalfRenameKeepsRowsIff(OneAddress(), s, PtrKey(Near(), Ptr()));
    assert PtrKey(s.links[Ptr()].reverseZone, Ptr()) == PtrKey(Near(), Ptr());
  }

  // ----- PTRs left behind, and links let go -----

  /** The sync of the address record, as it was first saved. */
  const SYNC := SyncArgs(Key(FORWARD, FORWARD, "A"), 300, [TEXT], true)

  /** Where the paired zone fits, the address's PTR is wanted there. */
  lemma WantedNear(s: Store)
    requires s.pairs == {(FORWARD, Near())}
    ensures Wanted(OneAddress(), s, OPERATOR, SYNC) == map[Ptr() := Target(Near(), TEXT)]
  {
    hide Ptr, Near, Wide, Targets, PtrOf, Placement, OneAddress;
    AddressIsRead();
    PlacedNear(s);
    OneTarget(s);
  }

  lemma PlacedNear(s: Store)
    requires s.pairs == {(FORWARD, Near())}
    ensures Placement(s, FORWARD, Ptr()) == Some(Near())
  {
    hide Ptr, Near, Wide, InZone, Canonical, Enclosing;
    NamesAreNames();
    assert PairedZones(s, FORWARD) == {Near()} by { assert (FORWARD, Near()) in s.pairs; }
    assert CanonicalSet({Near()}) == {Near()};
    assert IsEnclosing(Ptr(), {Near()}, Some(Near()));
    EnclosingUnique(Ptr(), {Near()}, Some(Near()), Enclosing(Ptr(), {Near()}));
  }

  lemma OneTarget(s: Store)
    ensures Targets(OneAddress(), s, OPERATOR, FORWARD, [TEXT]) ==
      AddTarget(OneAddress(), s, OPERATOR, FORWARD, map[], TEXT)
  {
    hide AddTarget;
    assert [TEXT][..0] == [];
  }

  /** The PTR was written while only the /16 zone was there; now that the /24 zone is paired, it stays behind. */
  lemma PairingLeavesPtrBehind()
    ensures IsLeftBehind(CleanSync(OneAddress(), Linked(Wide()), OPERATOR, SYNC), Ptr(), Linked(Wide()).links[Ptr()])
  {
    hide Ptr, Near, Wide, CleanSync, Wanted, Answers;
    var s := Linked(Wide());
    LinkedHolds(Wide());
    NamesAreNames();
    WantedNear(s);
    MovedPtrStaysBehindIff(OneAddress(), s, OPERATOR, SYNC, Ptr());
  }

  /** Cleaning that up by hand then lets the new link go, although both of its sets are in step. */
  lemma CleaningUpLetsGo()
    ensures var s := Linked(Near());
      IsLetGo(Deleted(OneAddress(), s, OPERATOR, PtrKey(Wide(), Ptr()), 300), Ptr(), s.links[Ptr()])
  {
    hide Ptr, Near, Wide, LinksHold, Deleted, Answers, Lists;
    LinkedHolds(Near());
    NamesAreNames();
    DeletedElsewhereIff(OneAddress(), Linked(Near()), OPERATOR, PtrKey(Wide(), Ptr()), 300, Ptr());
  }

  /** Deleting the forward zone leaves the PTR answering for a name that is gone. */
  lemma DroppedZoneLeavesPtr()
    ensures IsLeftBehind(ZoneDeleted(Linked(Near()), FORWARD), Ptr(), Linked(Near()).links[Ptr()])
  {
    hide Ptr, Near, Wide, ZoneDeleted, Answers;
    LinkedHolds(Near());
    NamesAreNames();
    DroppedZoneLeavesPtrIff(Linked(Near()), FORWARD, Ptr());
  }

  // ----- a PTR that is linked and disabled -----

  /** The form of the linked PTR set, saved as it is but for the box that disables it. */
  function DisablingForm(): RecordForm {
    RecordForm(Near(), "PTR", Ptr(), "300", FORWARD, true, "", false, "", "")
  }

  lemma DisablingFormIs()
    ensures var f := DisablingForm();
      f.Zone() == Near() && f.Name() == Ptr() && f.Lines() == [FORWARD] && AllCanonical(f.Lines()) == [FORWARD]
  {
    hide Ptr, Near, Wide, Canonical, AbsoluteName, ValidTtl;
    NamesAreNames();
    CanonicalIffShape(FORWARD);
    PtrIsWhole();
    OneLine();
  }

  lemma PtrIsWhole()
    ensures AbsoluteName(Ptr(), Near()) == Ptr() && Ptr() != ""
  {
    hide Ptr, Near, Wide, Canonical, Fold;
    NamesAreNames();
    CanonicalIffShape(Ptr());
    AbsoluteCases(Ptr(), Near());
    assert Fold(Ptr()) == Ptr();
  }

  lemma OneLine()
    ensures Fields(FORWARD, false) == [FORWARD]
  {
    OnePiece(FORWARD);
    assert Strip(FORWARD) == FORWARD by { assert IsTrimmed(FORWARD); }
  }

  /** It stays linked, and nobody is served. */
  lemma DisabledPtrStaysLinked()
    ensures LinksServe(OneAddress(), Linked(Near()))
    ensures var s' := Saved(OneAddress(), Linked(Near()), OPERATOR, DisablingForm());
      Ptr() in s'.links && !Serves(s', Ptr(), s'.links[Ptr()])
  {
    hide Ptr, Near, Wide, LinksHold, Saved, Serves, Canonical, AbsoluteName, ValidTtl, Fields, AllCanonical;
    var s, f := Linked(Near()), DisablingForm();
    LinkedHolds(Near());
    DisablingFormIs();
    NamesAreNames();
    UnservedIff(OneAddress(), s, OPERATOR, f, Ptr());
  }

  // ----- a CNAME in the way -----

  /** The paired reverse zone holds a CNAME at the address's PTR name. */
  function WithCname(): Store {
    Store({FORWARD, Near()},
          map[Key(Near(), Ptr(), "CNAME") := RRset(300, [Record("c.", false)], "")],
          map[], {(FORWARD, Near())})
  }

  /** The sync writes a PTR beside it. */
  lemma SyncBreaksStrictRules()
    ensures RulesHold(WithCname(), {}) && !RulesHold(CleanSync(OneAddress(), WithCname(), OPERATOR, SYNC), {})
  {
    hide Ptr, Near, Wide, InZone, IsName, Wanted, CleanSync, Canonical, RulesHold;
    var s, c := WithCname(), Key(Near(), Ptr(), "CNAME");
    CnameIsInOrder({});
    WantedNear(s);
    assert c in s.rrsets && Ptr() in Wanted(OneAddress(), s, OPERATOR, SYNC);
    SyncKeepsStrictRulesIff(OneAddress(), s, OPERATOR, SYNC);
  }

  lemma CnameIsInOrder(spared: set<string>)
    ensures RulesHold(WithCname(), spared)
  {
    hide Ptr, Near, Wide, InZone, IsName;
    NamesAreNames();
    assert CnameIsAlone(WithCname(), Key(Near(), Ptr(), "CNAME"), spared);
  }

  // ----- a save whose pre-check saw nothing -----

  /** A text record for the name that has the CNAME. */
  function TextForm(): RecordForm {
    DisablingForm().(rtype := "TXT")
  }

  lemma TextFormIs()
    ensures var f := TextForm(); f.Key() == Key(Near(), Ptr(), "TXT") && IsSavable(OneAddress(), f, {}) && !f.IsRename()
  {
    hide Ptr, Near, Wide, InZone, Canonical, AbsoluteName, ValidTtl, Fields;
    DisablingFormIs();
    NamesAreNames();
    TtlIsRead();
    assert Strip(Ptr()) != "" by { CanonicalIffShape(Ptr()); }
  }

  lemma TtlIsRead()
    ensures ValidTtl("300") == Some(300)
  {
    assert NatText(3) == "3" && NatText(30) == "30" && IntText(300) == "300";
    ParsePrinted(300);
  }

  /** When the zone could not be listed for the pre-check, it is accepted and stands beside the CNAME. */
  lemma UncheckedSaveBreaksRules()
    ensures RulesHold(WithCname(), {"PTR"}) && IsSavable(OneAddress(), TextForm(), {})
    ensures !RulesHold(Saved(OneAddress(), WithCname(), OPERATOR, TextForm()), {"PTR"})
  {
    hide Ptr, Near, Wide, RulesHold, Written, Finished, IsSavable, Canonical, AbsoluteName;
    var s, f := WithCname(), TextForm();
    CnameIsInOrder({"PTR"});
    TextFormIs();
    assert Key(Near(), Ptr(), "CNAME") in s.rrsets;
    assert "CNAME" in Remaining(s, f);
    SavedMayFinish(OneAddress(), Written(s, f), OPERATOR, f);
    SaveKeepsRulesIff(OneAddress(), s, OPERATOR, f, {}, Saved(OneAddress(), s, OPERATOR, f), {"PTR"});
  }

  // ----- a deletion without access -----

  /** Unticking the box takes the PTR from a zone that the user, who may only edit the forward zone, may not edit. */
  lemma RetireWithoutAccess()
    ensures var user := User("u", false, {FORWARD});
      && CanEdit(user, FORWARD) && !CanEdit(user, Near())
      && Lookup(CleanSync(OneAddress(), Linked(Near()), user, Retire(SYNC.owner, 300)), PtrKey(Near(), Ptr())) == None
  {
    hide Ptr, Near, Wide, CanEdit, CleanSync, Lookup;
    NearIsClosed(User("u", false, {FORWARD}));
    RetireTakesPtr(User("u", false, {FORWARD}));
  }

  lemma RetireTakesPtr(user: User)
    ensures Lookup(CleanSync(OneAddress(), Linked(Near()), user, Retire(SYNC.owner, 300)), PtrKey(Near(), Ptr())) ==
      None
  {
    hide Ptr, Near, Wide, Answers, Wanted, AfterSync, Lookup, LinksHold;
    var s, a := Linked(Near()), Retire(SYNC.owner, 300);
    LinkedHolds(Near());
    NothingWanted(OneAddress(), s, user, SYNC.owner, 300);
    var wanted := Wanted(OneAddress(), s, user, a);
    var dropped := Retired(s, a, wanted);
    assert Ptr() in StillOurs(s, dropped);
    LookupAfterSync(s, a, wanted, wanted.Keys, dropped, StillOurs(s, dropped), PtrKey(Near(), Ptr()));
  }

  lemma NearIsClosed(user: User)
    requires user == User("u", false, {FORWARD})
    ensures CanEdit(user, FORWARD) && !CanEdit(user, Near())
  {
    hide Near, Canonical;
    NamesAreNames();
    assert FORWARD in user.grants;
    CanonicalIffShape(Near());
    CanonicalIffShape(FORWARD);
    BodyOfCanonical(Near());
    BodyOfCanonical(FORWARD);
    assert Lower(FORWARD) == FORWARD && Lower(Near()) == Near();
  }
}
