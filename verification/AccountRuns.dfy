/** Interleavings of sign-ins and administration. */
module AccountRuns {
  import opened PyText
  import opened Accounts

  datatype Event =
    | SignIn(claim: Claim, role: Option<string>)
    | Create(form: NewUser, passwordIsFine: bool)
    | Update(actor: nat, id: nat, edit: Edit, passwordIsFine: bool)
    | Delete(actor: nat, id: nat)

  /** Claims come from LDAP, OAuth or SAML, and a resolved role is one of the panel's. */
  predicate IsEvent(e: Event) {
    e.SignIn? ==> e.claim.source != LOCAL && (e.role.Some? ==> e.role.value in ROLES)
  }

  ghost predicate IsStep(users: Users, e: Event, users': Users, hash: string -> string) {
    match e
    case SignIn(claim, role) => exists answer :: IsSignIn(users, claim, role, users', answer)
    case Create(form, fine) => exists id :: IsCreation(users, form, fine, hash, users', id)
    case Update(actor, id, edit, fine) =>
      users' == if MayEdit(users, actor, id, edit, fine) then users[id := Edited(users[id], edit, hash)] else users
    case Delete(actor, id) => users' == if MayDelete(users, actor, id) then users - {id} else users
  }

  /** `states` are the tables a run goes through, one per event after the first. */
  ghost predicate IsRun(states: seq<Users>, events: seq<Event>, hash: string -> string) {
    && |states| == |events| + 1
    && forall k :: 0 <= k < |events| ==> IsEvent(events[k]) && IsStep(states[k], events[k], states[k + 1], hash)
  }

  /** Usernames are lower-case and distinct, subjects distinct, and no local account is pinned or tied to a provider. */
  ghost predicate IsSound(users: Users) {
    && IsUnique(users)
    && forall i :: i in users ==> IsSoundRow(users[i])
  }

  predicate IsSoundRow(u: User) {
    IsLower(u.username) && (u.IsLocal() ==> u.provider == "" && u.externalId == None && !u.roleLocked)
  }

  lemma EditIsSound(users: Users, id: nat, edit: Edit, hash: string -> string)
    requires IsSound(users) && id in users
    ensures IsSound(users[id := Edited(users[id], edit, hash)])
  {
    hide Strip, IsLower;
    var users' := users[id := Edited(users[id], edit, hash)];
    forall i | i in users'
      ensures i in users && users'[i].username == users[i].username
      ensures users'[i].provider == users[i].provider && users'[i].externalId == users[i].externalId
    {
    }
    assert IsSoundRow(users[id]);
  }

  lemma FewerIsSound(users: Users, id: nat)
    requires IsSound(users)
    ensures IsSound(users - {id})
  {
    hide IsSoundRow;
  }

  lemma SignInIsSound(users: Users, claim: Claim, role: Option<string>, users': Users, answer: Answer)
    requires IsSound(users) && IsSignIn(users, claim, role, users', answer) && claim.source != LOCAL
    ensures IsSound(users')
  {
    hide IsUnique, HasSubject, HasName, NormaliseUsername, IsLower;
    if answer.SignedIn? {
      assert forall i :: i in users' && i != answer.id ==> i in users && users'[i] == users[i];
    }
  }

  /** A sign-in never touches a local account's row: it neither changes it nor takes it away. */
  lemma SignInSparesLocals(users: Users, claim: Claim, role: Option<string>, users': Users, answer: Answer, i: nat)
    requires IsSound(users) && IsSignIn(users, claim, role, users', answer)
    requires i in users && users[i].IsLocal()
    ensures i in users' && users'[i] == users[i]
  {
    hide IsUnique, HasName, NormaliseUsername, IsLower;
    assert IsSoundRow(users[i]);
  }

  /** Nor does it make one. */
  lemma SignInMakesNoLocal(users: Users, claim: Claim, role: Option<string>, users': Users, answer: Answer, i: nat)
    requires IsSignIn(users, claim, role, users', answer) && claim.source != LOCAL
    requires i in users' && users'[i].IsLocal()
    ensures i in users && users[i] == users'[i]
  {
    hide IsUnique, HasSubject, HasName, NormaliseUsername;
  }

  lemma StepIsSound(users: Users, e: Event, users': Users, hash: string -> string)
    requires IsSound(users) && IsEvent(e) && IsStep(users, e, users', hash)
    ensures IsSound(users')
  {
    hide IsSound, IsSignIn, IsCreation, MayEdit, MayDelete, Edited;
    match e
    case SignIn(claim, role) =>
      var answer :| IsSignIn(users, claim, role, users', answer);
      SignInIsSound(users, claim, role, users', answer);
    case Create(form, fine) =>
      var id :| IsCreation(users, form, fine, hash, users', id);
      CreationIsSound(users, form, fine, hash, users', id);
    case Update(actor, id, edit, fine) =>
      if MayEdit(users, actor, id, edit, fine) {
        EditedIsThere(users, actor, id, edit, fine);
        EditIsSound(users, id, edit, hash);
      }
    case Delete(actor, id) => FewerIsSound(users, id);
  }

  lemma EditedIsThere(users: Users, actor: nat, id: nat, edit: Edit, fine: bool)
    requires MayEdit(users, actor, id, edit, fine)
    ensures id in users
  {
  }

  lemma CreationIsSound(users: Users, form: NewUser, fine: bool, hash: string -> string, users': Users, id: Option<nat>)
    requires IsSound(users) && IsCreation(users, form, fine, hash, users', id)
    ensures IsSound(users')
  {
    hide IsUnique, Strip;
  }

  /** In every table a run goes through, usernames are lower-case and distinct and no local account is pinned. */
  lemma {:induction false} RunIsSound(states: seq<Users>, events: seq<Event>, hash: string -> string, k: nat)
    requires IsRun(states, events, hash) && IsSound(states[0]) && k < |states|
    ensures IsSound(states[k])
  {
    hide IsSound, IsStep;
    if k > 0 {
      RunIsSound(states, events, hash, k - 1);
      StepIsSound(states[k - 1], events[k - 1], states[k], hash);
    }
  }

  /** The event is an administrator's edit or removal of this row. */
  predicate Handles(e: Event, id: nat) {
    (e.Update? || e.Delete?) && e.id == id
  }

  lemma PinnedStays(users: Users, e: Event, users': Users, hash: string -> string, id: nat)
    requires IsStep(users, e, users', hash) && !Handles(e, id)
    requires id in users && users[id].roleLocked
    ensures id in users' && users'[id].roleLocked && users'[id].role == users[id].role
  {
    hide IsUnique, HasSubject, HasName, NormaliseUsername, Edited, MayEdit, MayDelete, Strip;
  }

  /** A pinned role only changes by an administrator's hand: whatever else a run does, it is what it was. */
  lemma {:induction false} RunKeepsPinned(states: seq<Users>, events: seq<Event>, hash: string -> string, id: nat,
                                          k: nat)
    requires IsRun(states, events, hash) && k < |states|
    requires forall j :: 0 <= j < |events| ==> !Handles(events[j], id)
    requires id in states[0] && states[0][id].roleLocked
    ensures id in states[k] && states[k][id].roleLocked && states[k][id].role == states[0][id].role
  {
    hide IsStep;
    if k > 0 {
      RunKeepsPinned(states, events, hash, id, k - 1);
      PinnedStays(states[k - 1], events[k - 1], states[k], hash, id);
    }
  }

  /** A user found by subject whose new name another row has cannot be saved: the commit fails. */
  lemma RenameOntoTakenNameFails(users: Users, claim: Claim, role: Option<string>, users': Users, answer: Answer,
                                 id: nat, other: nat)
    requires IsSound(users) && IsSignIn(users, claim, role, users', answer)
    requires id in users && HasSubject(users[id], claim)
    requires other in users && other != id && NormaliseUsername(claim.username) == Some(users[other].username)
    ensures users' == users && (answer.Conflict? <==> role.Some? && users[id].isActive)
  {
    hide NormaliseUsername, IsLower, HasName;
    assert forall i :: i in users && HasSubject(users[i], claim) ==> SameSubject(users[id], users[i]);
    if answer.SignedIn? {
      assert SameSubject(users[id], users[answer.id]);
      NamesDiffer(users', id, other);
    }
  }

  lemma NamesDiffer(users: Users, i: nat, j: nat)
    requires IsUnique(users) && i in users && j in users && i != j
    ensures users[i].username != users[j].username
  {
  }

  // ----- the last administrator -----

  predicate IsActiveAdmin(users: Users, i: nat) {
    i in users && users[i].IsAdmin() && users[i].isActive
  }

  ghost predicate HasActiveAdmin(users: Users) {
    exists i :: IsActiveAdmin(users, i)
  }

  /** A sign-in takes the administrator's role from an active one. */
  ghost predicate Demotes(users: Users, e: Event, users': Users) {
    e.SignIn? && exists i :: IsActiveAdmin(users, i) && !IsActiveAdmin(users', i)
  }

  lemma StepKeepsAnAdmin(users: Users, e: Event, users': Users, hash: string -> string)
    requires IsStep(users, e, users', hash) && HasActiveAdmin(users) && !Demotes(users, e, users')
    ensures HasActiveAdmin(users')
  {
    hide IsUnique, HasSubject, HasName, NormaliseUsername, Strip;
    var i :| IsActiveAdmin(users, i);
    if !IsActiveAdmin(users', i) {
      assert e.Update? || e.Delete?;
      assert OtherAdmins(users, i) != {};
      var j :| j in OtherAdmins(users, i);
      assert IsActiveAdmin(users', j);
    }
  }

  /** Administration never removes the last active administrator, so a run keeps one as long as no sign-in demotes
      one. */
  lemma {:induction false} RunKeepsAnAdmin(states: seq<Users>, events: seq<Event>, hash: string -> string, k: nat)
    requires IsRun(states, events, hash) && HasActiveAdmin(states[0]) && k < |states|
    requires forall j :: 0 <= j < |events| ==> !Demotes(states[j], events[j], states[j + 1])
    ensures HasActiveAdmin(states[k])
  {
    hide IsStep, HasActiveAdmin, Demotes;
    if k > 0 {
      RunKeepsAnAdmin(states, events, hash, k - 1);
      StepKeepsAnAdmin(states[k - 1], events[k - 1], states[k], hash);
    }
  }

  /** A sign-in demotes exactly when it reaches an active administrator who is not pinned with a lesser role. */
  lemma DemotesIff(users: Users, claim: Claim, role: Option<string>, users': Users, answer: Answer)
    requires IsSound(users) && IsSignIn(users, claim, role, users', answer)
    ensures Demotes(users, SignIn(claim, role), users') <==>
      answer.SignedIn? && IsActiveAdmin(users, answer.id) && !users[answer.id].roleLocked && role != Some(ADMIN)
  {
    hide IsUnique, HasSubject, HasName, NormaliseUsername, IsSound;
    if answer.SignedIn? && answer.id in users {
      assert IsActiveAdmin(users, answer.id) && !IsActiveAdmin(users', answer.id) <==>
        IsActiveAdmin(users, answer.id) && !users[answer.id].roleLocked && role != Some(ADMIN);
    }
  }
}
