# A verified model of the panel's state machines

The panel is a web front end for the PowerDNS authoritative server and its recursor. This project models the parts of
it that carry state or arithmetic, in Dafny 4.11, and proves what they keep:

* **Linked PTR records.** An A or AAAA record set may own PTRs in other zones. Record saves, renames, deletions, zone
  deletions and zone settings keep three stores in step: the forward record sets, the PTR sets and the link table.
  `PanelState` is the data, `ReverseSync` the server, the tables and the sync, `SyncLaws` what one sync guarantees,
  `ZoneHandlers` the requests, `LinkRows` and `ServedPtrs` what each of them does to the links and their PTR sets,
  `ZoneRuns` what runs keep when calls succeed, `FailingRuns` what they keep when any call may fail, `ZoneRequests` that
  the requests are the events of those runs, `LinkRetention` what it takes to lose a link, `LinkLimits` and
  `LinkExamples` where the guarantees stop, `ZoneRules` and `RecordRules` what the zones themselves keep over the same
  runs, `SerialRuns` what becomes of a zone's SOA in them. `SyncEffects`, `SaveEffects` and `ZoneEffects` say what a
  complete request brings about, in terms of the form's fields and of the sets, rows and pairings alone.
* **Reverse-zone arithmetic.** `ReverseNames`, `EnclosingZones`, `DottedNames` and `Powers` relate intervals of 32- and
  128-bit addresses to suffixes of names (section 3.5 of RFC 1035, section 2.5 of RFC 3596); `ReverseText` is how the
  names are written.
* **The recursor.** `Recursor`, `RecursorSync` and `RecursorLaws` are the upsert on the recursor's API and the
  reconciliation of forward rules, `RecursorRequests` the forms and hooks that use them; `ZoneIds` the identifiers they
  rest on; `Forwarders` and `ForwarderEffects` the forwarder lists.
* **The login throttle.** `Throttle` is the timed counter and the sign-in request that drives it, `ThrottleLaws` its
  bound over whole runs, `ThrottleHistory` what a throttled answer says about who gets it.
* **Names and texts.** `Names` (relative and absolute names), `SoaText` (e-mail addresses and RNAMEs), `SoaRecord` (SOA
  content and the serial over runs of saves). `PyText` and `PyNumbers` hold the few string operations used, and
  `TextLaws` says what the text functions give, character by character.
* **Accounts.** `Accounts`, `AccountRuns` and `AccountEffects` are external sign-in and administration over one user
  table; `Providers`,
  `ProviderLaws`, `ProviderEffects` and `ProviderExamples` the provider configuration merged from the environment and
  the database;
  `OAuthClients` the cache of OAuth clients.

Objects that the program updates in place are classes (`Panel`, `RecursorServer`, `LoginThrottle`, `UserTable`,
`ClientCache`), and their methods are proved against functions of the old state; the laws are lemmas about those
functions. A call to a server may fail and then changes nothing: the methods choose the outcome freely, so every
contract holds for every pattern of failures. A server counts the calls that failed, so a contract can also say what
must have been done when none did. Where a step of the program picks "some" element (an order of zones, a
row among several), the choice is free too.

## Reading the model

* Text is a sequence of code points; case and white space follow Python for the first 256 of them. Record types arrive
  upper-case and trimmed, and an empty TTL field arrives as the configured default.
* Parsing of names, record content and addresses belongs to libraries. It is a parameter (`Parsers`, `parse`,
  `AddressLibrary`, `decrypt`) about which only what is written in a `requires` is assumed: for forwarders, that
  printing an address is undone by reading it, and which characters each family prints.
* The address of a sign-in request has no `|`, which the throttle puts between username and address
  (`ThrottleHistory.KeyIsPair`).
* The zone-name argument of the sync is never given by its callers, so the model always lists the zones itself.
* Times are real numbers, and the login request reads the clock once before and once after the check of the password.
* Tables are maps with the unique constraints of `webui/app/models.py`; the link table is keyed by the PTR name.

Where the code is not what a reader may expect, the model follows the code:

* An IPv4 /8 is one zone, though the comment at `webui/app/reverse.py:49-53` speaks of refusing it; refused are exactly
  the lengths listed at `ReverseNames.RefusedExactly`.
* Retiring a link does not ask whether the user may edit its zone (`webui/app/reverse.py:465`), so access is stated for
  writes only (`LinkLimits.RetireIgnoresAccessIff`, `LinkExamples.RetireWithoutAccess`), and a retirement that fails
  still drops the link (`webui/app/reverse.py:468-470`, `LinkLimits.SyncLeavesBehindIff`).
* A rename that deletes the old set and fails to write the new one stops before the reverse side.
  `LinkLimits.HalfRenameHoldsIff` and `LinkLimits.HalfRenameKeepsRowsIff` say exactly when that breaks the links; the
  runs of `FailingRuns` include such renames and keep a record of what they leave to be done.
* Whether an edited PTR set is handed back is decided by its contents. A linked PTR set saved with the same content and
  disabled stays linked and serves nothing (`LinkLimits.UnservedIff`, `LinkExamples.DisabledPtrStaysLinked`).
* A PTR may be left behind, or a link let go, without anything being wrong with either set:
  * when the preferred reverse zone changes, the PTR is written in the new zone and the old set stays, without a link
    (`LinkLimits.MovedPtrStaysBehindIff`);
  * when a forward zone is deleted, the PTRs of its records in other zones stay and answer for names that are gone
    (`LinkLimits.DroppedZoneLeavesPtrIff`);
  * links are found by PTR name whatever the zone, so deleting, editing or renaming a PTR set of the same name in
    another zone lets go of a link whose own two sets are in step - cleaning up what a change of zones left behind does
    so (`LinkLimits.DeletedElsewhereIff`, `LinkLimits.SavedElsewhereIff`, `LinkExamples.CleaningUpLetsGo`).
* A reverse zone that the settings form could not create is paired all the same (`webui/app/views/zones.py:643-657`).
* Linked PTRs are written without a look at CNAMEs; `ZoneRules.SyncKeepsStrictRulesIff` is the exact condition, and
  `LinkExamples.SyncBreaksStrictRules` a store where it fails.
* A save whose pre-check could not list the zone goes on as if nothing stood beside the name
  (`webui/app/views/zones.py:708-714`); `ZoneRules.SaveKeepsRulesIff` says exactly when that breaks the rules,
  `LinkExamples.UncheckedSaveBreaksRules` is an instance.
* A forward rule that is renamed is deleted first, and lost if the save then fails (`RecursorRequests.PostRule`).
* The recursor sync compares names as stored with canonical ones. `RecursorLaws.SyncSettles` gives the outcome for every
  state, `RecursorLaws.MixedCaseRuleIsLost` and `RecursorLaws.MixedCaseForeignRuleIsLost` rules it loses, the `...Iff`
  lemmas when that happens.
* A backslash before the `@` is not escaped in an RNAME (`SoaText.EmailComesBackIff`); identifiers of zones are unique
  below code point 256 only (`ZoneIds.DecodeEncodeIff`, `ZoneIds.WideNamesCollide`), so that deleting a wider name may
  delete another's rule (`RecursorLaws.WideNameDeletesAnother`).
* White space inside the primary name on the settings form makes the stored SOA lose its serial;
  `SoaRecord.FormKeepsSerialIff` says exactly when, `SoaRecord.SerialIsLost` is an instance.
* A second usable LDAP or SAML row is not in effect although no problem is reported for it
  (`ProviderLaws.LdapInEffect`, `ProviderExamples.SecondRowIsUnused`), and an LDAP row whose timeout is not a number
  takes the sign-in page down (`ProviderLaws.RaisesIff`, `ProviderExamples.BadTimeoutRaises`), against the comment at
  `webui/app/auth/store.py:262`.

## Model

| member | source | states |
|---|---|---|
| ReverseSync.Panel.ReplaceRRset | webui/app/pdns.py:327-360 | one name and type becomes exactly the given set in an existing zone and nothing else changes; a failed call changes nothing |
| ReverseSync.Panel.DeleteRRset | webui/app/pdns.py:362-366 | only that name and type goes; a failed call changes nothing |
| ReverseSync.Panel.GetRRset | webui/app/pdns.py:254-274 | an answer is the stored set, or none when an existing zone has none; a zone the server lacks is a failure |
| ReverseSync.Panel.CreateZone | webui/app/pdns.py:276-297 | fails for a zone that exists; a new one gets its apex sets and nothing else changes |
| ReverseSync.Panel.FindTargets | webui/app/reverse.py:402-429 | the wanted PTRs, each listed once, with exactly the addresses no zone fits and the zones the user may not edit; it gives up only if the listing of zones fails |
| ReverseSync.Panel.WriteTargets | webui/app/reverse.py:433-463 | the store after writing: exactly the PTRs reported written are set and linked, all of them if none failed, and those taken from another record are reported |
| ReverseSync.Panel.DeleteIfOurs | webui/app/reverse.py:476-498 | a PTR set goes only if it still answers with the link's forward name |
| ReverseSync.Panel.RetireLinks | webui/app/reverse.py:465-470 | every owned link not wanted is dropped; exactly the sets reported removed are deleted, and all that still answered if none failed |
| ReverseSync.Panel.SyncRecord | webui/app/reverse.py:380-473 | whatever fails, the store is the old one with some wanted PTRs written and all unwanted links dropped; if no call fails it is the fully synced store; stolen PTRs, addresses without a zone and zones denied are reported exactly, and it raises only when it has to list the zones for an address that no paired zone is around |
| SyncLaws.TargetsExactly | webui/app/reverse.py:402-429 | the wanted PTRs are those of the addresses with a zone the user may edit, each placed in its zone for one of its addresses |
| SyncLaws.PlacementFits | webui/app/reverse.py:416-422 | a placed PTR lies in its zone, and that is a paired zone or one on the server |
| SyncLaws.PtrSetAnswers | webui/app/reverse.py:433-443 | the set a sync writes, read back, is exactly the forward name |
| SyncLaws.LookupAfterSync | webui/app/reverse.py:380-473 | every record set after a sync, key by key: written, deleted or as before |
| SyncLaws.SyncKeepsAnswers | webui/app/reverse.py:380-498 | whatever calls fail, every link's PTR still answers with its forward name, the record owns only wanted PTRs, other links are untouched |
| SyncLaws.SyncChangesOnlyItsPtrs | webui/app/reverse.py:380-498 | a changed set is a PTR: written in a zone the user may edit and that fits, or owned, unwanted, still answering and deleted |
| SyncLaws.CleanIsSynced | webui/app/reverse.py:380-473 | the sync without failures is one of the outcomes a sync may have |
| SyncLaws.CleanSyncOwnsWanted | webui/app/reverse.py:399-473 | without failures the record owns exactly the wanted PTRs, each linked and answering with its name |
| SyncLaws.CleanSyncIsIdempotent | webui/app/reverse.py:399-473 | a second sync changes nothing |
| SyncLaws.RenameLeavesNothing | webui/app/views/zones.py:141-165 | retiring the old name and syncing the new one leaves no link for the old name |
| SyncEffects.PlacementIs | webui/app/reverse.py:405-422 | a PTR belongs in the nearest zone its record's zone is paired with, and only if none of those is around it in the nearest zone of all |
| SyncEffects.CanEditIff | webui/app/models.py:133-142 | operators may edit every zone; anyone else exactly those that a text on their list names, in any case and with any number of dots behind |
| SyncEffects.SyncLinksExactly | webui/app/reverse.py:380-473 | a complete sync links an A or AAAA set to the PTR of every address that has a zone the user may write to, each in the zone it belongs in and reading exactly the record's name with its TTL, and to nothing else; without the box, or for any other type, the set owns nothing |
| SyncEffects.SyncRetires | webui/app/reverse.py:465-498 | a link of the record that is not asked for any more goes, and its PTR set with it if that still is exactly the forward name, and otherwise stays |
| SyncEffects.SyncSparesOthers | webui/app/reverse.py:380-473 | rows of other records that are not taken over, their PTR sets and all sets that are not PTRs stay |
| SyncEffects.ReportsAre | webui/app/reverse.py:411-428 | an address is reported if and only if no zone is around its PTR, a zone if and only if some PTR belongs there and the user may not edit it |
| RecordRules.ValidateRRset | webui/app/dnsutil.py:77-132 | each complaint is made exactly when it is due, and none is made exactly for the record sets that meet all the rules |
| RecordRules.NoneDueIff | webui/app/dnsutil.py:77-132 | no complaint is due if and only if the set is well-formed, in its zone, and alone where it must be |
| ZoneHandlers.SaveRecord | webui/app/views/zones.py:672-782 | refusals change nothing, a failure leaves the old store or a half-made rename, a save made is the written forward set followed by what its sync may do; whatever fails in a save made, the set it replaces and an address set whose box is not ticked or whose records are disabled own nothing; if no call failed, an acceptable form is saved completely and only an unacceptable one refused |
| ZoneHandlers.FinishSave | webui/app/views/zones.py:763-782 | what follows a write: the sync with whatever failed in it, then the edited and moved PTR links |
| ZoneHandlers.SyncReverse | webui/app/views/zones.py:130-182 | the replaced set is retired first and then the new one synced, each as far as calls succeed; whatever fails, the replaced set and one whose box is not ticked own nothing afterwards |
| ZoneHandlers.ForgetPtr | webui/app/reverse.py:347-359 | the link under that name in any case goes and nothing else, and the answer says whether there was one |
| ZoneHandlers.UnlinkEditedPtr | webui/app/views/zones.py:185-200 | a linked PTR whose new content is not exactly the linked name is handed back |
| ZoneHandlers.DeleteRecord | webui/app/views/zones.py:785-831 | who may delete what; a deletion made takes the set, and its PTRs or its link, as far as calls succeed; whatever fails, a deleted address set owns nothing |
| ZoneHandlers.DeleteZone | webui/app/views/zones.py:834-861 | only operators who typed the name; then the zone, its sets, its pairings and both sides' links are gone together |
| ZoneHandlers.ForgetZone | webui/app/reverse.py:362-377 | exactly the pairings and links through the zone go |
| ZoneHandlers.SetLinkedReverseZones | webui/app/reverse.py:267-294 | the zone's pairings become exactly the given ones, all names made canonical, other zones' stay, and the reported difference is the real one |
| SaveEffects.FormKeyIs | webui/app/views/zones.py:679-729 | the record set a form is for, that a blank name and `@` are the zone, and when a form is a rename |
| SaveEffects.FormTtlIs | webui/app/dnsutil.py:135-145 | the TTL of a form is the number in its field, from 0 to 2147483647 |
| SaveEffects.SaveLinksExactly | webui/app/views/zones.py:763-782 | a complete save of an A or AAAA set links it to the PTR of every line with a zone the user may write to and to nothing else, if the box is ticked and the records are enabled, and otherwise to nothing; each PTR set is exactly the name, with the form's TTL; a PTR set of that name which the form itself moves away is written and not linked |
| SaveEffects.SaveRetires | webui/app/views/zones.py:763-782 | a link of the saved set or of the one it replaces that the form does not ask for goes, and its PTR set too if that still said the name and is not the set the form writes |
| SaveEffects.SaveStoresSet | webui/app/views/zones.py:724-742 | after a complete save the form's set is stored, lines in order, all enabled or all disabled, with TTL and comment; the one it replaces is gone; no other set but PTRs has changed |
| SaveEffects.PtrFormUnlinksIff | webui/app/views/zones.py:185-200 | a PTR set edited in place keeps its link if and only if its one line is the link's forward name; other links stay |
| SaveEffects.MovedPtrIsUnlinked | webui/app/views/zones.py:777-782 | a PTR set that is moved or given another type loses its link |
| SaveEffects.DeletionTakes | webui/app/views/zones.py:785-831 | a complete deletion takes the set, of an A or AAAA set also its links and those PTR sets that still said its name, and nothing else |
| SaveEffects.PtrDeletionTakes | webui/app/views/zones.py:825-831 | deleting a PTR set takes it and the link of its name |
| SaveEffects.SavableIff | webui/app/dnsutil.py:77-132 | the forms that are accepted over a zone with given types at the name, said type by type |
| SaveEffects.TypesBesideAre | webui/app/views/zones.py:704-712 | what the pre-check sees is the other types at the name in that zone |
| ZoneEffects.PairingsAre | webui/app/views/zones.py:643-657 | after a complete save of settings a zone is paired with exactly the zones ticked and created; other zones' pairings stay |
| ZoneEffects.OfferedIff | webui/app/views/zones.py:470-488 | the settings form offers exactly the reverse zones on the server, other than the zone itself, that the user may edit |
| ZoneEffects.ApexIs | webui/app/views/zones.py:610-640 | the stored NS set is the nameservers in order and the SOA set one record with the content made of the serial read and the form, each with its own TTL; other sets of the zone stay |
| ZoneEffects.SlaveSetsStay | webui/app/views/zones.py:512-519 | the form writes none of a slave's sets |
| ZoneEffects.StoredSoaIs | webui/app/views/zones.py:557-561 | the SOA read is the content of the first record of the apex set, if there is one |
| ZoneEffects.SettingsCreate | webui/app/views/zones.py:643-655 | a complete save creates each zone it names that is not there, with the form's nameservers unless the zone is a slave |
| ZoneEffects.NewZoneIs | webui/app/pdns.py:276-297 | a new zone has an SOA and the nameservers given in order, and all else stays |
| ZoneEffects.CreatedHave | webui/app/views/zones.py:107-127 | of several zones asked for each that was not there exists afterwards with the nameservers given |
| ZoneEffects.DeletedZoneIsGone | webui/app/views/zones.py:834-861 | of a deleted zone no set, no pairing and no link on either side is left, and all else stays |
| ZoneHandlers.CreateReverseZones | webui/app/views/zones.py:107-127 | missing zones are created; whatever fails, nothing but new apex sets appears |
| ZoneHandlers.SaveSettings | webui/app/views/zones.py:491-665 | who may save what, how far a failed save got, and the store after a made one; with no failing call it is complete |
| ZoneHandlers.NewZone | webui/app/views/zones.py:233-328 | a new zone and its reverse zones; nothing but new apex sets appears |
| LinkRows.OneSetChanged | webui/app/views/zones.py:724-742 | changing one record set can only put its own key out of step |
| LinkRows.SyncRestores | webui/app/reverse.py:380-473 | a sync settles its own record's links and leaves what holds of all others |
| LinkRows.ForgetKeeps | webui/app/reverse.py:347-359 | forgetting a link settles what its PTR set says |
| LinkRows.HandBackKeeps | webui/app/views/zones.py:185-200 | handing an edited PTR back settles it: a link that stays is one whose name is the whole content written, disabled or not |
| ServedPtrs.MaySyncServes | webui/app/reverse.py:380-498 | whatever fails in a sync, a link that stays is untouched, row and PTR set, or its PTR is enabled and exactly its name |
| ServedPtrs.SaveServes | webui/app/views/zones.py:672-782 | the same for a save and what follows it, unless the form itself disables that PTR set |
| ServedPtrs.DeleteServes | webui/app/views/zones.py:785-831 | the same for a deletion |
| ServedPtrs.PtrFormKeepsRows | webui/app/views/zones.py:185-200 | a form that saves a PTR set adds no link and changes none |
| LinkRows.SaveSettles | webui/app/views/zones.py:672-782 | a complete save, renames and PTR edits included, puts the sets it touches in step, stale or not, and leaves all others as they were |
| LinkRows.DeleteSettles | webui/app/views/zones.py:785-831 | so does a complete deletion of a record set |
| LinkRows.DropZoneKeeps | webui/app/views/zones.py:834-861 | deleting a zone puts no link out of step |
| LinkRows.CreateKeeps | webui/app/views/zones.py:107-127 | nor do new zones, however many of those asked for |
| ZoneRuns.SettingsKeepLinks | webui/app/views/zones.py:491-665 | nor does a save of settings with its new zones and pairings |
| ZoneRuns.StepStaysStored | webui/app/views/zones.py:672-861 | zones keep canonical names, and sets and pairings belong to zones that exist |
| ZoneRuns.StepSettles | webui/app/views/zones.py:672-861 | every complete request settles the forward sets it touches and keeps the rest |
| ZoneRuns.StepKeepsLinks | webui/app/views/zones.py:672-861 | every request keeps the links in step |
| ZoneRuns.RunKeepsLinks | webui/app/reverse.py:362-498 | in every state a run reaches, each link ties a live, enabled address set listing its address to a PTR set, disabled or not, whose content is exactly its name, under the PTR name of that address |
| ZoneRuns.EmptyStoreHolds | webui/app/models.py:175-212 | the empty store is in step, so the run theorem applies from the start |
| FailingRuns.MaySyncKeeps | webui/app/reverse.py:380-498 | whatever fails in a sync, only its own record's links may be out of step, and every PTR answers |
| FailingRuns.SaveMayKeep | webui/app/views/zones.py:672-782 | whatever fails on the reverse side of a save, at most the forward sets it touched are out of step |
| FailingRuns.DeleteMayKeep | webui/app/views/zones.py:785-831 | the same for a deletion |
| FailingRuns.StepServes | webui/app/views/zones.py:672-861 | whatever fails in a request, a link that stays is untouched or its PTR answers, enabled, unless the request was half a rename of that PTR set or disabled it |
| FailingRuns.StepTracks | webui/app/views/zones.py:672-861 | every request, complete or stopped anywhere, keeps the links in step apart from what is recorded as left to be done |
| FailingRuns.FailingRunKeepsLinks | webui/app/reverse.py:362-498 | over any run with any failures each link is under the PTR name of its address; its PTR set is exactly its forward name, unless half a rename deleted it and nothing has been done about it or its link since; it is enabled, unless saved disabled and left so; and a live set lists the address, unless that set's last request was cut short |
| FailingRuns.RunIsTracked | webui/app/views/zones.py:672-861 | every run with any failures is one of those whose outstanding work is recorded |
| FailingRuns.FailingRunKeepsRows | webui/app/reverse.py:362-498 | in a run with any failures but half renames of linked PTR sets, every link stays under its address's PTR name and its PTR content is exactly its forward name, whatever is wrong on the forward side |
| FailingRuns.LinksHoldIsStronger | webui/app/models.py:175-212 | what runs without failures keep implies what runs with failures keep |
| LinkRetention.StepRetains | webui/app/views/zones.py:672-861 | whatever fails, a request that does not concern a link leaves its row as it is |
| LinkRetention.RunRetains | webui/app/views/zones.py:672-861 | over any run a link leaves the table or changes only by a save, rename or deletion of its own forward set, a save claiming its address, an edit, rename or deletion of a PTR set of its name, or the deletion of one of its zones |
| FailingRuns.CleanRunMayBe | webui/app/views/zones.py:672-861 | runs without failures are among the runs in which any call may fail |
| FailingRuns.RunServesLinks | webui/app/reverse.py:362-498 | over a run without failures that saves no linked PTR set disabled, every link ties an enabled PTR set that is exactly its name to a live, enabled address set listing its address |
| ZoneRequests.PostRecord | webui/app/views/zones.py:672-782 | a posted record form is a save event: what it leaves is what that event may lead to, and all of its work when it was clean; unless the zone could not be listed, its pre-check saw the zone as it was |
| ZoneRequests.PostDeletion | webui/app/views/zones.py:785-831 | the same for the deletion of a record set |
| ZoneRequests.PostZoneDeletion | webui/app/views/zones.py:834-861 | the same for the deletion of a zone |
| ZoneRequests.PostSettings | webui/app/views/zones.py:491-665 | the same for the settings form, whose new reverse zones are those of the networks in its text |
| ZoneRequests.PostZone | webui/app/views/zones.py:233-328 | the same for the new-zone form |
| LinkLimits.HalfRenameHoldsIff | webui/app/views/zones.py:724-753 | a rename stopped half-way keeps the links in step if and only if no link touches the deleted set |
| LinkLimits.HalfRenameKeepsRowsIff | webui/app/views/zones.py:724-753 | it keeps every PTR answering if and only if the deleted set was no link's PTR |
| LinkLimits.SyncLeavesBehindIff | webui/app/reverse.py:433-498 | whatever fails, a sync leaves a linked PTR behind if and only if it has written it in another zone or dropped the link without deleting the set |
| LinkLimits.MovedPtrStaysBehindIff | webui/app/reverse.py:433-463 | a sync leaves a linked PTR behind if and only if it wants that PTR in another zone; the old set then stays as it was |
| LinkLimits.DroppedZoneLeavesPtrIff | webui/app/reverse.py:362-377 | deleting a zone leaves a linked PTR behind if and only if the zone held the forward side and not the PTR |
| LinkLimits.DeletedElsewhereIff | webui/app/views/zones.py:828-829 | deleting a record set lets go of a link with both sets in step if and only if it is a PTR set of that name in another zone |
| LinkLimits.ResyncedElsewhereIff | webui/app/views/zones.py:763-780 | a save lets go of a link in step, as its own sync left it, if and only if a PTR set of that name in another zone is given other content or renamed, or one is renamed in favour of the link's own record |
| LinkLimits.SavedElsewhereIff | webui/app/views/zones.py:763-780 | a save lets go of a stored link with both sets in step if and only if the form edits a PTR set of that name in another zone, or renames one while what it wants leaves the two sets as they were |
| LinkLimits.UnservedIff | webui/app/views/zones.py:185-200 | a save leaves a link whose PTR serves nothing if and only if it saves that PTR set disabled with the link's own name, and does not move the link's record there |
| LinkLimits.RetireIgnoresAccessIff | webui/app/reverse.py:465-470 | a sync takes a PTR from a zone the user may not edit if and only if an unwanted link that still answers is there |
| LinkExamples.HalfRenameBreaksLinks | webui/app/views/zones.py:724-753 | a store with one link that half a rename of its address set puts out of step |
| LinkExamples.HalfRenameBreaksRows | webui/app/views/zones.py:724-753 | and that half a rename of its PTR set leaves without an answer |
| LinkExamples.PairingLeavesPtrBehind | webui/app/reverse.py:433-463 | a PTR in a /16 zone is left behind once the /24 zone is paired |
| LinkExamples.CleaningUpLetsGo | webui/app/reverse.py:347-359 | deleting what was left behind lets go of the new link |
| LinkExamples.DroppedZoneLeavesPtr | webui/app/reverse.py:362-377 | deleting the forward zone leaves the PTR answering |
| LinkExamples.DisabledPtrStaysLinked | webui/app/views/zones.py:185-200 | a linked PTR set saved as it is but disabled stays linked and serves nothing |
| LinkExamples.SyncBreaksStrictRules | webui/app/reverse.py:433-443 | a PTR is written beside a CNAME in a store that kept the rules |
| LinkExamples.RetireWithoutAccess | webui/app/reverse.py:465-470 | a user who may edit the forward zone only takes a PTR from the reverse zone |
| LinkExamples.UncheckedSaveBreaksRules | webui/app/views/zones.py:704-742 | a form accepted without a listing writes a TXT set beside a CNAME |
| ZoneRules.WrittenKeepsRulesIff | webui/app/views/zones.py:704-753 | what an accepted form writes, whatever its pre-check saw, keeps names in their zones and CNAMEs single, alone and off the apex if and only if, the replaced set gone, no other type is in its way |
| ZoneRules.PrecheckMakesRoom | webui/app/dnsutil.py:107-130 | a form accepted by a pre-check that saw the zone has nothing in its way, a renamed set and an SOA included |
| ZoneRules.WrittenKeepsRules | webui/app/views/zones.py:704-753 | a save accepted over the zone as it is keeps the rules |
| ZoneRules.SoaExemptionIsSafe | webui/app/dnsutil.py:107-130 | an SOA is accepted beside anything, and still never meets a CNAME, because both are decided at the apex |
| ZoneRules.SyncKeepsRules | webui/app/reverse.py:433-463 | whatever fails in a sync, it keeps the rules if PTRs beside a CNAME are tolerated or none is in the way |
| ZoneRules.SyncedKeepsStrictRulesIff | webui/app/reverse.py:433-463 | with no toleration a sync, as far as it got, keeps them if and only if no CNAME is where it wrote a PTR |
| ZoneRules.SyncKeepsStrictRulesIff | webui/app/reverse.py:433-463 | a complete one if and only if no CNAME is where a wanted PTR goes |
| ZoneRules.SaveKeepsRulesIff | webui/app/views/zones.py:672-782 | a save that was made keeps the rules, PTRs tolerated, if and only if nothing was in its way, whatever the pre-check saw and whatever failed on the reverse side |
| ZoneRules.StepKeepsRules | webui/app/views/zones.py:672-861 | every request, complete or stopped anywhere, half a rename, a partial sync and partly created zones included, keeps the rules; a save that wrote its set must have been pre-checked or had nothing in its way |
| ZoneRules.RunKeepsRules | webui/app/dnsutil.py:77-132 | over every run of such requests, in which any call may fail, each set lies in its zone and a CNAME is one record, off the apex, beside no other type |
| ZoneRules.CleanRunIsRuled | webui/app/views/zones.py:672-861 | runs of complete requests are among those |
| ZoneRules.CleanRunKeepsRules | webui/app/views/zones.py:672-861 | over a run of complete requests, moreover, every set and every pairing belongs to a zone that exists |
| ReverseNames.ZoneNameIsCanonical | webui/app/reverse.py:165-173 | a PTR or zone name is canonical: lower case, one trailing dot |
| ReverseNames.LabelTextInjective | webui/app/reverse.py:80-90 | different octets or nibbles have different labels |
| ReverseNames.ZoneHolds | webui/app/reverse.py:165-173 | an address lies in the zone cut from another at a label boundary if and only if the two share those leading bits and the family |
| ReverseNames.RefusedExactly | webui/app/reverse.py:93-127 | refused are exactly the IPv4 lengths 1-3, 9-11 and 17-19; every other network has 1 to 16 zones |
| ReverseNames.NetworkIsItsSubnets | webui/app/reverse.py:117-127 | a network is the interval of its numbered subnets |
| ReverseNames.ZonesAreTheNetwork | webui/app/reverse.py:93-127 | down to /24 or /64 an address is in the network if and only if its PTR name is in a returned zone, and then in exactly one |
| ReverseNames.LongPrefixHasOneZone | webui/app/reverse.py:111-112 | a longer prefix has one zone, and it holds every address of the network |
| ReverseNames.EveryAddressHasAZone | webui/app/reverse.py:93-127 | every address of an accepted network lies in a returned zone |
| ReverseText.ShownIs | webui/app/reverse.py:80-90 | a number below 1000 is printed in decimal without leading zeros |
| ReverseText.QuadNames | webui/app/reverse.py:165-173 | the PTR name of a.b.c.d is d, c, b and a in decimal, each with a dot behind it, and `in-addr.arpa.`; a zone at `8 * k` bits has the last `k` of them |
| ReverseText.NibbleNames | webui/app/reverse.py:165-173 | the PTR name of an IPv6 address is its 32 lower-case hexadecimal digits, the lowest first, each with a dot behind it, and `ip6.arpa.`; a zone at `4 * k` bits has the last `k` of them |
| ReverseText.ZonesEnd | webui/app/reverse.py:93-127 | every zone of an IPv4 network ends with `in-addr.arpa.` and of an IPv6 network with `ip6.arpa.`, so that each is a reverse zone to the settings form |
| ReverseText.LongQuadZone | webui/app/reverse.py:111-112 | an IPv4 network of /24 or longer has the one zone of its /24 |
| ReverseText.LongNibbleZone | webui/app/reverse.py:111-112 | an IPv6 network of /64 or longer has the one zone of its /64 |
| ReverseText.ShortNetworkCount | webui/app/reverse.py:114-125 | a shorter network that is accepted has as many zones as its length is bits short of a label |
| ReverseText.ShortNetworkZones | webui/app/reverse.py:93-127 | and an address has the network's leading bits if and only if its PTR name lies in one of those |
| ReverseText.ListedIff | webui/app/reverse.py:130-148 | the list has the zones of the accepted entries and no others, each once |
| ReverseText.ReportedIff | webui/app/reverse.py:130-148 | exactly the entries that are no networks or need too many zones are reported |
| ReverseNames.ReverseZonesForNetworks | webui/app/reverse.py:130-148 | the zones of all accepted entries, each once in first-occurrence order, and exactly the refused entries as problems |
| EnclosingZones.EnclosingUnique | webui/app/reverse.py:176-187 | two longest matching zones are the same, so the answer depends on the set of canonical names only |
| EnclosingZones.EnclosingZone | webui/app/reverse.py:176-187 | the loop finds that longest matching zone, whatever the order, case and dots of the candidates |
| EnclosingZones.ListedZonesServe | webui/app/reverse.py:130-187 | every address of every accepted entry finds a zone among those the form lists |
| DottedNames.InZoneIffSuffix | webui/app/reverse.py:184 | one dotted name lies in another's zone if and only if its labels end with the other's |
| Recursor.RecursorServer.Post | webui/tests/fake_recursor.py:136-155 | refuses an empty name and one it has in any case, otherwise adds the rule under the identifier of its name |
| Recursor.RecursorServer.Put | webui/tests/fake_recursor.py:157-177 | replaces what one identifier names |
| Recursor.RecursorServer.Delete | webui/tests/fake_recursor.py:157-177 | removes what one identifier names |
| Recursor.RecursorServer.ResolveZoneId | webui/app/recursor.py:184-199 | the stored identifier of a zone with that name in any case, or the computed one if there is none |
| Recursor.RecursorServer.SaveForwardZone | webui/app/recursor.py:236-261 | unless a call fails, afterwards the canonical name has exactly this rule, whatever case or kind it had; a failure changes nothing |
| Recursor.RecursorServer.DeleteForwardZone | webui/app/recursor.py:263-265 | the named zone goes, and if no zone has the name, the one under its computed identifier; a failure changes nothing |
| Recursor.DeletesOnlyItsOwn | webui/app/recursor.py:184-199 | below code point 256 no zone is under the computed identifier of a name without one |
| Recursor.StoredUnder | webui/app/recursor.py:184-199 | the computed identifier is under no other name |
| Recursor.UpsertAt | webui/app/recursor.py:236-261 | saving is an upsert: the name reads as the new rule and every other as before, unless it shares the identifier, which none does below code point 256 |
| Recursor.DropAt | webui/app/recursor.py:263-265 | deleting takes that name and leaves every other |
| RecursorSync.GetForwardZone | webui/app/recursor.py:177-182 | the forward rule under a name in any case, if there is one |
| RecursorSync.ForwardLocally | webui/app/views/zones.py:72-104 | creating a zone overwrites its rule, deleting it removes the rule only if it pointed at the target |
| RecursorSync.SyncLocalZones | webui/app/recursor.py:327-366 | how far the sync got and, for names below code point 256, the rule of every name at that point; deletions start once all additions are made; it stops exactly when a call fails |
| RecursorLaws.SyncSettles | webui/app/recursor.py:327-366 | from any state, what each name ends with after a complete sync |
| RecursorLaws.WantedForwardsIff | webui/app/recursor.py:341-357 | after a sync a wanted name nobody else rules forwards to the target unless, and only unless, an own rule had it in another spelling |
| RecursorLaws.ForeignStaysIff | webui/app/recursor.py:341-357 | a sync leaves somebody else's rule, or the root's, unless, and only unless, it has a wanted name in another spelling |
| RecursorLaws.MixedCaseRuleIsLost | webui/app/recursor.py:341-357 | a concrete state in which the sync deletes the rule it has just replaced |
| RecursorLaws.MixedCaseForeignRuleIsLost | webui/app/recursor.py:341-357 | a concrete state in which the sync overwrites somebody else's rule |
| RecursorLaws.WideNameDeletesAnother | webui/app/recursor.py:184-199 | a concrete state in which deleting a name above code point 255 deletes another's rule |
| RecursorLaws.SyncReachesItsGoal | webui/app/recursor.py:327-366 | with canonical rule names: foreign rules stay, wanted names forward to the target, no other own rule is left |
| RecursorLaws.PartialSync | webui/app/recursor.py:349-366 | wherever it stops, each name has what it had or what it will end with, and foreign rules are untouched |
| RecursorLaws.StaysCanonical | webui/app/recursor.py:250 | a sync, complete or not, leaves rule names canonical |
| RecursorLaws.UpsertKeepsCanonical | webui/app/recursor.py:250 | saving a rule keeps rule names canonical |
| RecursorLaws.RunKeepsHealthy | webui/app/recursor.py:236-366 | over any run of saves, deletions, follow-ups and syncs with any failures, one zone per name and canonical rule names remain, which is what a sync needs to reach its goal |
| RecursorLaws.SyncConverges | webui/app/recursor.py:327-366 | a complete sync after one that stopped anywhere ends where an undisturbed one would have |
| RecursorLaws.SecondSyncIsIdle | webui/app/recursor.py:327-366 | after a complete sync the next finds nothing to add or remove |
| RecursorRequests.PostRule | webui/app/views/forwarding.py:159-204 | a posted rule is a deletion of the old name, if that is another, followed by a save; each leaves what the runs say it may, both are complete if no call failed, and a failed save leaves the deletion standing |
| RecursorRequests.RenamedAt | webui/app/views/forwarding.py:187-194 | after a complete rename the old name has no rule, the new one has this rule, and every other what it had |
| RecursorRequests.PostRuleDeletion | webui/app/views/forwarding.py:251-262 | a posted deletion leaves what the runs say it may, and is complete if no call failed |
| RecursorRequests.FollowZone | webui/app/views/zones.py:72-104 | what follows the creation or deletion of a zone leaves what the runs say it may, and is complete if no call failed |
| RecursorRequests.PostSync | webui/app/views/forwarding.py:66-94 | a sync of the local zones leaves what the runs say it may, and a complete one leaves each name exactly what `RecursorLaws.SyncSettles` says; from canonical rule names, a listed name keeps a rule it has and otherwise forwards to the target without recursion, and any other name loses exactly a rule that points at the target, but for the root |
| RecursorRequests.SettledIsUpToDate | webui/app/recursor.py:327-366 | why that is so, name by name over the list as given |
| ZoneIds.DecodeEncodeIff | webui/app/recursor.py:84-87 | a name can be read back from its identifier if and only if its code points are below 256 |
| ZoneIds.ApiIdInjective | webui/tests/fake_recursor.py:33-41 | two dotted names below code point 256 with one identifier are equal; the root's identifier is nobody else's |
| ZoneIds.ZoneIdInjective | webui/app/recursor.py:76-90 | zones with one identifier have the same canonical name |
| ZoneIds.WideNamesCollide | webui/app/recursor.py:85 | two different canonical names, one with a code point above 255, share an identifier |
| Forwarders.PrintedPortIff | webui/app/recursor.py:134-141 | a printed integer is accepted as a port if and only if it is from 1 to 65535 |
| Forwarders.SplitShown | webui/app/recursor.py:104-131 | a stored entry splits into the address and port it was made of |
| Forwarders.NormaliseIsIdempotent | webui/app/recursor.py:93-131 | an accepted entry normalised again is unchanged and means the same address and port, whatever the default port is then |
| Forwarders.StoredAlikeIff | webui/app/recursor.py:93-131 | two accepted entries are stored alike if and only if they mean the same address and port |
| Forwarders.ListAcceptedIff | webui/app/recursor.py:144-151 | a list is accepted if and only if it has an entry and each entry is accepted |
| Forwarders.ListKeepsOrder | webui/app/recursor.py:144-151 | an accepted list is the normal forms of its entries, each once, in first-occurrence order |
| Forwarders.ListComesBack | webui/app/recursor.py:62-64 | an accepted list shown on the form and saved again is the same list |
| ForwarderEffects.BareMeans | webui/app/recursor.py:93-131 | an entry without a colon and without brackets is an address with the default port |
| ForwarderEffects.BareV6Means | webui/app/recursor.py:93-131 | so is one with more than one colon |
| ForwarderEffects.PortedMeans | webui/app/recursor.py:116-118 | with one colon, what is behind it is the port, a number from 1 to 65535 |
| ForwarderEffects.BracketedMeans | webui/app/recursor.py:105-115 | a bracketed entry is an address with the default port |
| ForwarderEffects.BracketedPortMeans | webui/app/recursor.py:105-115 | and with a colon behind the bracket, with the port that follows |
| ForwarderEffects.OtherBracketsMeanNothing | webui/app/recursor.py:105-115 | a bracket left open, and anything else behind one, is refused |
| ForwarderEffects.StoredAs | webui/app/recursor.py:129-131 | an entry is stored as the printed address, an IPv6 one in brackets, a colon and the port in decimal |
| Throttle.LoginThrottle.Prune | webui/app/security.py:299-306 | above the threshold exactly the stale entries go |
| Throttle.LoginThrottle.IsLocked | webui/app/security.py:308-320 | the seconds left, and the table with an expired lockout forgotten |
| Throttle.LoginThrottle.RecordFailure | webui/app/security.py:322-330 | the count goes on, or starts over after a stale entry |
| Throttle.LoginThrottle.Reset | webui/app/security.py:332-333 | that key's entry goes |
| Throttle.Login | webui/app/views/auth_views.py:63-120 | what a sign-in answers and does to the table, in the order check, verdict, record or reset |
| ThrottleLaws.LockedExactly | webui/app/security.py:308-320 | a key is locked if and only if its count is reached and the last failure is at most one second less than the lockout ago |
| ThrottleLaws.StepRemembers | webui/app/views/auth_views.py:63-120 | every request keeps the entry counting the failures of the last span and the failures spaced |
| ThrottleLaws.RunIsSpaced | webui/app/views/auth_views.py:63-120 | over every run, more admitted failures in a row than allowed take longer than the span |
| ThrottleLaws.AtMostTheAllowance | webui/app/security.py:281-333 | any stretch of `lockout_seconds - 1` holds at most `max_attempts` admitted failures of a key, over every run and whatever other keys do |
| ThrottleLaws.PruningIsInvisible | webui/app/security.py:299-306 | on every sequence of calls a throttle that prunes answers as one that never does |
| ThrottleHistory.KeyIsPair | webui/app/security.py:295-297 | two requests share a counter if and only if they have the same username in any case and the same address, as addresses have no bar |
| ThrottleHistory.FailuresAre | webui/app/views/auth_views.py:63-120 | the failures since a sign-in are exactly the pair's admitted ones that no sign-in of the pair came after |
| ThrottleHistory.ThrottledIsEarned | webui/app/views/auth_views.py:63-120 | over every run from the empty table a request is throttled only if its pair has at least `max_attempts` admitted failures since it last signed in, the last within the span, and that many of them each within the lockout of the one before |
| ThrottleHistory.SignInStartsOver | webui/app/views/auth_views.py:110-120 | after a sign-in a pair is not throttled before `max_attempts` new failures |
| ThrottleHistory.CloseFailuresThrottle | webui/app/views/auth_views.py:63-120 | and it is throttled once that many failures each lie within the span of the one before, and the last within the span |
| ThrottleHistory.OtherwiseByVerdict | webui/app/views/auth_views.py:63-120 | a blank name or password is incomplete, and a request that is not throttled is answered by its verdict |
| ThrottleHistory.SecondsAreLeft | webui/app/security.py:308-320 | the seconds told are those left of the lockout, rounded down |
| Names.CanonicalIffShape | webui/app/pdns.py:96-103 | a name is canonical if and only if it is lower case, trimmed and ends with exactly one dot, or is empty or the root |
| Names.CanonicalHasShape | webui/app/pdns.py:96-103 | every result of `canonical` has that shape |
| Names.CanonicalIdempotent | webui/app/pdns.py:96-103 | `canonical` is idempotent |
| Names.AbsoluteIsCanonical | webui/app/pdns.py:116-124 | an absolute name is canonical |
| Names.AbsoluteCases | webui/app/pdns.py:116-124 | the three ways an operator's text becomes a name: the zone, the text made canonical, or the text in front of what is left of the zone |
| Names.RelativeCases | webui/app/pdns.py:106-113 | the three ways a name is shown |
| Names.AddedIsBehindIff | webui/app/pdns.py:116-124 | expanding adds what showing takes away if and only if the zone has no white space before its final dot |
| Names.AbsoluteUndoesRelative | webui/app/pdns.py:106-124 | for every name and zone, expanding a shown name gives it back if and only if it is the zone, or a plain name in a zone without white space before its final dot, or a plain name outside a zone of which expanding leaves nothing |
| Names.RelativeUndoesAbsolute | webui/app/pdns.py:106-124 | for every text and zone, the text comes back from its absolute name if and only if it is `@`, or plain in such a zone |
| SoaText.RnameToEmail | webui/app/dnsutil.py:226-246 | the loop reads the first label with its escapes undone, and the rest as the domain |
| SoaText.EmailComesBack | webui/app/dnsutil.py:208-246 | an address without a backslash before the last `@` and without a dot at its end survives as an RNAME |
| SoaText.EmailComesBackIff | webui/app/dnsutil.py:208-246 | among addresses with one `@` and a domain, no others survive |
| SoaText.BackslashIsLost | webui/app/dnsutil.py:208-246 | an address with a backslash and one with a dot at its end that do not come back |
| SoaText.RnameComesBackIff | webui/app/dnsutil.py:208-246 | a canonical RNAME that escapes only dots survives as an address if and only if its domain has no `@` |
| SoaText.AtInDomainIsLost | webui/app/dnsutil.py:208-246 | an RNAME with an `@` in its domain that does not come back |
| TextLaws.StripIs | webui/app/pdns.py:96-103 | stripping takes exactly the white space around a text |
| TextLaws.CanonicalIs | webui/app/pdns.py:96-103 | a canonical name is the text without white space around it, in lower case, with one dot instead of any number behind it |
| TextLaws.CanonicalOfLittle | webui/app/pdns.py:96-103 | white space is no name, and dots are the root |
| TextLaws.EntriesAre | webui/app/recursor.py:144-147 | a text area's entries are its pieces between line breaks, and commas where tolerated, in order, trimmed, without blank ones |
| TextLaws.LineBreaksAre | webui/app/views/zones.py:682-684 | the characters a text area is cut at |
| TextLaws.DotIsEscaped | webui/app/dnsutil.py:208-223 | each dot of a local part gets a backslash and nothing else does |
| TextLaws.RnameIs | webui/app/dnsutil.py:208-223 | an RNAME is the escaped local part, a dot, the domain and a dot |
| TextLaws.ContentIs | webui/app/dnsutil.py:177-181 | SOA content is primary name, RNAME, serial, refresh, retry, expire and minimum with one space between them |
| TextLaws.LaterWordsAreIgnored | webui/app/dnsutil.py:184-205 | words behind the seventh do not matter when SOA content is read, and fewer are none |
| TextLaws.UnderscoreIsSkipped | webui/app/dnsutil.py:184-205 | a single underscore between digits does not matter when a number is read |
| TextLaws.SignedNumberReads | webui/app/dnsutil.py:135-145 | nor does white space around it, and a sign is read as one |
| TextLaws.EscapeIs | webui/app/recursor.py:76-90 | in an identifier letters, digits, dots and hyphens stand for themselves and other characters below 256 for two upper-case hexadecimal digits behind an equals sign |
| TextLaws.IdentifierIs | webui/app/recursor.py:76-90 | a dotted name of such characters is its own identifier, and the root's is `=2E` |
| SoaRecord.ContentComesBackIff | webui/app/dnsutil.py:160-205 | written SOA content reads back as the record, its primary name canonical, if and only if both names are without white space and not empty |
| SoaRecord.SerialAfter | webui/app/views/zones.py:557-568 | a save carries the serial on if its two names make exactly two words, and otherwise leaves a number that does not depend on it |
| SoaRecord.FormKeepsSerialIff | webui/app/views/zones.py:557-568 | a form keeps every serial if and only if its names make two words between them - for names that are not empty, if and only if neither has white space inside |
| SoaRecord.RunKeepsSerialIff | webui/app/views/zones.py:557-568 | a run of saves keeps every serial if and only if each of its forms does |
| SoaRecord.SavesKeepSerial | webui/app/views/zones.py:557-568 | for forms whose names have no white space, any run leaves the serial as it was first read and the last form's fields in force |
| SoaRecord.InnerBlankRestartsSerial | webui/app/views/zones.py:557-568 | a primary name of two words makes the content unreadable and the next save restarts the serial at 1 |
| SoaRecord.SerialIsLost | webui/app/views/zones.py:557-568 | for every serial, the name `a b.` and one more save bring it back to 1 |
| SerialRuns.ApexSoaIs | webui/app/views/zones.py:557-568 | the settings form stores exactly the SOA made of the serial it read and its own fields |
| SerialRuns.StepStoresSoa | webui/app/views/zones.py:491-861 | whatever fails in a request, a zone's SOA stays or is what its settings form makes of it, unless a record form replaces it or the zone is deleted |
| SerialRuns.CleanRunStoresForms | webui/app/views/zones.py:491-861 | over a run of complete requests the stored SOA is what the settings forms made of it one after the other, whatever else was requested |
| SerialRuns.RunKeepsStoredSerial | webui/app/views/zones.py:557-568 | over a run in which any call may fail the stored serial stays, if every settings form saved for the zone has names of two words and nothing else replaces the SOA |
| PyNumbers.ParsePrinted | webui/app/dnsutil.py:177-205 | a printed integer reads back, for every integer |
| Accounts.UsernamesAre | webui/app/auth/provisioning.py:57-69 | the names that come out are exactly the lower-case ones of 1 to 190 allowed characters, and they go in unchanged |
| Accounts.UserTable.ResolveIdentity | webui/app/auth/provisioning.py:89-193 | when a sign-in is refused, conflicts or succeeds, which row it reaches, and the table after it |
| Accounts.UserTable.CreateUser | webui/app/views/admin.py:52-98 | a new local row exactly when the form is in order and the name is free in any case |
| Accounts.ApplyEdit | webui/app/views/admin.py:162-192 | the assignments of an edit, with the pin set by choosing a role by hand and cleared by handing it back |
| Accounts.UserTable.UpdateUser | webui/app/views/admin.py:133-205 | an edit is made exactly when it may be, and changes that row only |
| Accounts.UserTable.DeleteUser | webui/app/views/admin.py:235-262 | a row goes exactly when it may, and no other |
| Accounts.NewNameIsUnique | webui/app/models.py:45 | a name no row has in any case goes in without breaking a constraint |
| AccountRuns.SignInIsSound | webui/app/auth/provisioning.py:89-193 | a sign-in keeps usernames lower case and distinct and local accounts unpinned |
| AccountRuns.SignInSparesLocals | webui/app/auth/provisioning.py:111-132 | a sign-in never changes or removes a local account's row |
| AccountRuns.SignInMakesNoLocal | webui/app/auth/provisioning.py:134-169 | nor does it make one |
| AccountRuns.RunIsSound | webui/app/models.py:37-93 | over all interleavings usernames stay lower case and distinct, subjects distinct, local accounts unpinned |
| AccountRuns.RunKeepsPinned | webui/app/auth/provisioning.py:174-189 | a pinned role changes only by an administrator's edit of that row |
| AccountRuns.RenameOntoTakenNameFails | webui/app/models.py:45 | a sign-in matched by subject whose new name another row has changes nothing, and fails at the commit exactly if it got that far |
| AccountRuns.RunKeepsAnAdmin | webui/app/views/admin.py:148-160 | an active administrator remains over every run in which no sign-in demotes one |
| AccountRuns.DemotesIff | webui/app/auth/provisioning.py:174-189 | a sign-in demotes exactly when it reaches an unpinned active administrator with another role |
| AccountEffects.RefusedIff | webui/app/auth/provisioning.py:105-167 | a sign-in is refused if and only if it has no role or no allowed name, or the row it reaches is inactive, or is a local account's found by name |
| AccountEffects.SignInLeaves | webui/app/auth/provisioning.py:111-193 | the whole row after a sign-in: what the directory says, blank attributes left as they were, the role too unless it is pinned; password, pin and state stay, and so do all other rows |
| AccountEffects.EditedIff | webui/app/views/admin.py:133-192 | an edit is made if and only if its role is one of the panel's, the only active administrator is not lost, nobody deactivates themselves, and a local account's new password is fine |
| AccountEffects.RemovedIff | webui/app/views/admin.py:235-262 | a row is deleted if and only if it is not the actor's own and not an administrator's without another active one |
| AccountEffects.EditLeaves | webui/app/views/admin.py:162-192 | the whole row after an edit, and that it is pinned if and only if it is external, not handed back, and was pinned or given another role |
| AccountEffects.CreationIs | webui/app/views/admin.py:52-98 | when a local account is made, and its whole row |
| AccountEffects.RunLeavesRow | webui/app/models.py:37-93 | over every run a row stays as it is until a sign-in reaches it or an administrator edits or removes it |
| AccountEffects.RoleIsTheDirectorys | webui/app/auth/provisioning.py:174-189 | after any run an unpinned account nobody edited since has the role and name of its last sign-in |
| ProviderLaws.UsableOAuthIff | webui/app/auth/store.py:104-139 | an OAuth row is usable if and only if it has a client, a readable secret and either discovery or all three endpoints |
| ProviderLaws.UsableSamlIff | webui/app/auth/store.py:142-174 | a SAML row is usable if and only if its secrets are readable and it has metadata, or a sign-on address with a certificate |
| ProviderLaws.CompleteRowIs | webui/app/auth/store.py:76-101 | an enabled LDAP row raises or is fine according to whether it is complete and its timeout a number |
| Providers.EffectiveAuthConfig | webui/app/auth/store.py:227-272 | the one pass over the rows, with its growing set of taken names, gives each row's own say in the configuration |
| ProviderLaws.EnvironmentComesFirst | webui/app/auth/store.py:240-262 | the environment's OAuth providers are an unchanged prefix, all names are distinct, and only enabled rows stand behind the rest |
| ProviderLaws.OfferedIff | webui/app/auth/store.py:251-262 | an OAuth row is offered if and only if it is enabled, complete and not under a name of the environment's |
| ProviderLaws.ReportIsTrue | webui/app/auth/store.py:191-213 | a lower-case OAuth row is offered if and only if it is enabled and no problem is reported |
| ProviderLaws.OfferedThoughShadowedIff | webui/app/auth/store.py:203-208 | it is offered against the report if and only if upper case keeps its name apart from the environment's |
| ProviderLaws.SignInReachesRowIff | webui/app/config.py:402-406 | a sign-in under an offered row's name reaches it if and only if the name is lower case |
| ProviderLaws.EnvironmentWins | webui/app/config.py:402-406 | no row changes whom a sign-in reaches under a name of the environment's |
| ProviderLaws.LdapInEffect | webui/app/auth/store.py:253-256 | without an LDAP server in the environment, that of the first enabled row without a problem is used, none if there is none, and another such row's only if it says the very same |
| ProviderLaws.SamlInEffect | webui/app/auth/store.py:257-259 | the same for SAML |
| ProviderLaws.RaisesIff | webui/app/auth/store.py:251-265 | the configuration raises if and only if the environment names no LDAP server and the first complete LDAP row has a timeout that is not a number |
| ProviderEffects.OAuthRowSays | webui/app/auth/store.py:104-139 | every field of a usable OAuth provider is the setting or secret of its own key, with the two defaults of the scopes |
| ProviderEffects.LdapRowSays | webui/app/auth/store.py:76-101 | so are those of an LDAP server, whose timeout is 5 where none is given |
| ProviderEffects.SamlRowSays | webui/app/auth/store.py:142-174 | and those of a SAML provider |
| ProviderEffects.OfferedInOrder | webui/app/auth/store.py:247-262 | rows are offered in their order |
| ProviderEffects.EnvironmentStands | webui/app/auth/store.py:240-272 | rows do not decide on local sign-in and never replace a server of the environment's |
| ProviderEffects.ClientSaysRow | webui/app/auth/oauth.py:36-107 | after any run of requests the client of a row's provider has the row's credentials and scopes, and its discovery URL or else its authorize, token and userinfo URLs and key set, each where it belongs |
| ProviderExamples.BadTimeoutRaises | webui/app/auth/store.py:99 | a row with the timeout `n` that takes the sign-in page down |
| ProviderExamples.SecondRowIsUnused | webui/app/auth/store.py:253-254 | of two LDAP rows without a problem the second is not in effect |
| ProviderExamples.MixedCaseRowIsOffered | webui/app/auth/store.py:203-208 | a row `Corp` that is offered although reported as shadowed |
| OAuthClients.ClientCache.CreateClient | webui/app/auth/oauth.py:104-107 | a client built before is returned as it is, whatever is registered by now |
| OAuthClients.ClientCache.ClientFor | webui/app/auth/oauth.py:85-107 | the answer and the whole state after one request |
| OAuthClients.FingerprintDecides | webui/app/auth/oauth.py:36-69 | equal names and fingerprints mean equal registration arguments, and conversely for providers without discovery |
| OAuthClients.AnswerKeepsCurrent | webui/app/auth/oauth.py:85-107 | every cached client stays built from the registration its fingerprint stands for |
| OAuthClients.ClientIsNeverStale | webui/app/auth/oauth.py:85-107 | over any run of requests and edits the client returned was built from its provider's present arguments |
| OAuthClients.ClientIsReused | webui/app/auth/oauth.py:85-107 | the very same client is returned as long as its name is requested with the same configuration |

## Left out

- HTTP, URL building, error texts and timeouts of the API clients; a server is a map, and a call succeeds or fails.
- Flask, templates, flash messages, audit rows, logging, sessions and redirects; no modelled state rests on them.
- Zone kind, masters, DNSSEC, notify, retrieve and export; the settings form's own TTL and name checks.
- LDAP, SAML and OAuth exchanges, group mapping, password hashing and encryption; a sign-in gets a claim and a role.
- The record-content syntax, the parsing and compression of addresses, and IPv6 scope ids.
- Case and white space beyond code point 255, and Python's limit of 4300 digits on reading integers.
- The OAuth library builds a client already when it is registered; as the next call would build the same one, the model
  builds it there.
- Fields of provider configurations that are copied with a default and decide nothing: claims, icon, filters, roles.
- Settings values of a hand-edited provider row that are not text, and corrupt JSON in its two columns.
- The per-request cache of the merged configuration.
- Two requests at the same time, and several worker processes.
- Timestamps and string-length limits of the tables.
- ReverseSync.Panel.SyncRecord: the texts and the order of the reported lists are left open.
- ZoneHandlers.SaveRecord: of a save that was made but whose reverse side failed, which calls failed is left open; the
  store is one of those the sync may leave, and `FailingRuns.FailingRunKeepsLinks` says what holds of it.
- ZoneHandlers.SaveSettings: zone kind, masters, and the TTL, e-mail and name checks of the form, as above.
- ZoneHandlers.CreateReverseZones: the recursor rule written for each new zone is a step of its own,
  `RecursorSync.ForwardLocally`.
- ZoneHandlers.NewZone: kind, masters and the form's checks; the recursor rule as for reverse zones.
- ZoneRules.RunKeepsRules: of a save whose zone could not be listed it asks that nothing was in the way of its set, as
  the code then looks for nothing; `ZoneRules.SaveKeepsRulesIff` shows that no less will do.
- Recursor.RecursorServer.Put: a creation refused after the deletion, which would lose the zone; no caller sends
  one that could be refused.
- RecursorSync.SyncLocalZones: for wanted names above code point 255, whose identifiers collide, only how far the sync
  got is told and that one zone per name is kept.
- ThrottleLaws.AtMostTheAllowance: for a maximum below one the bound is one, because the first failure is always
  admitted.
- Forwarders.NormaliseIsIdempotent: what the address library prints is assumed to read back, over the characters of its
  family.
