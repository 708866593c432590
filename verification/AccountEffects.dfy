/** What sign-ins and administration do to a row, and that nothing else does anything to it. */
module AccountEffects {
  import opened PyText
  import opened Accounts
  import opened AccountRuns

  // ----- one sign-in -----

  /** A row carries the subject of this claim. */
  predicate IsSubject(u: User, claim: Claim) {
    claim.externalId.Some? && claim.provider != "" && u.provider == claim.provider && u.externalId == claim.externalId
  }

  ghost predicate HasSubjectRow(users: Users, claim: Claim) {
    exists i :: i in users && IsSubject(users[i], claim)
  }

  /** The row that signs in: found by the claim's subject, or if no row has that by the name, or a new one. */
  ghost predicate IsReached(users: Users, claim: Claim, name: string, id: nat) {
    if HasSubjectRow(users, claim) then id in users && IsSubject(users[id], claim)
    else if exists i :: i in users && Lower(users[i].username) == name then
      id in users && Lower(users[id].username) == name
    else id !in users
  }

  /** A sign-in is let through, or fails at the commit, exactly for someone with a role and an allowed name whose
      row, if there is one, is active and not a local account's that merely has the name. */
  lemma RefusedIff(users: Users, claim: Claim, role: Option<string>, users': Users, answer: Answer)
    requires IsSound(users) && IsSignIn(users, claim, role, users', answer)
    ensures answer.Refused? <==>
      || role.None? || !IsUsername(Lower(Strip(claim.username)))
      || exists id :: id in users && IsReached(users, claim, Lower(Strip(claim.username)), id)
           && (!users[id].isActive || (users[id].source == "local" && !HasSubjectRow(users, claim)))
  {
    hide Strip, Lower, IsSoundRow, NormaliseUsername, IsUnique;
    var name := Lower(Strip(claim.username));
    UsernamesAre(name);
    forall id: nat ensures IsMatch(users, claim, name, id) <==> IsReached(users, claim, name, id) {
      MatchIs(users, claim, name, id);
    }
    forall id: nat, other: nat
      | IsReached(users, claim, name, id) && IsReached(users, claim, name, other) && id in users
      ensures id == other
    {
      ReachedIsOne(users, claim, name, id, other);
    }
  }

  lemma MatchIs(users: Users, claim: Claim, name: string, id: nat)
    ensures IsMatch(users, claim, name, id) <==> IsReached(users, claim, name, id)
  {
    hide Lower;
    assert forall i :: i in users ==> (HasSubject(users[i], claim) <==> IsSubject(users[i], claim));
    assert forall i :: i in users ==> (HasName(users[i], name) <==> Lower(users[i].username) == name);
  }

  lemma ReachedIsOne(users: Users, claim: Claim, name: string, id: nat, other: nat)
    requires IsSound(users) && id in users
    requires IsReached(users, claim, name, id) && IsReached(users, claim, name, other)
    ensures id == other
  {
    hide Lower, IsLower;
    assert other in users;
    if HasSubjectRow(users, claim) {
      assert SameSubject(users[id], users[other]);
    } else {
      LowerIsSame(users[id]);
      LowerIsSame(users[other]);
    }
  }

  lemma LowerIsSame(u: User)
    requires IsSoundRow(u)
    ensures Lower(u.username) == u.username
  {
  }

  /** What a sign-in leaves in the row it reached: what the directory says, the role included unless it is pinned; blank
      attributes are not taken over, and the password, the pin and the state stay. Every other row stays as it was. */
  lemma SignInLeaves(users: Users, claim: Claim, role: Option<string>, users': Users, id: nat)
    requires IsSignIn(users, claim, role, users', SignedIn(id))
    ensures id in users' && role.Some? && IsReached(users, claim, Lower(Strip(claim.username)), id)
    ensures var u := users'[id];
      && u.username == Lower(Strip(claim.username)) && u.source == claim.source && u.provider == claim.provider
      && u.lastGroups == claim.groups && u.isActive
      && (claim.externalId.Some? ==> u.externalId == claim.externalId)
      && (claim.email != "" ==> u.email == claim.email)
      && (claim.displayName != "" ==> u.displayName == claim.displayName)
      && (id in users ==>
            var before := users[id];
            && (claim.externalId.None? ==> u.externalId == before.externalId)
            && (claim.email == "" ==> u.email == before.email)
            && (claim.displayName == "" ==> u.displayName == before.displayName)
            && u.passwordHash == before.passwordHash && u.roleLocked == before.roleLocked && before.isActive
            && u.role == if before.roleLocked then before.role else role.value)
      && (id !in users ==>
            && u.role == role.value && !u.roleLocked && u.passwordHash == None && u.externalId == claim.externalId
            && u.email == claim.email && u.displayName == claim.displayName)
    ensures forall i :: i != id ==> (i in users' <==> i in users) && (i in users ==> users'[i] == users[i])
  {
    hide Strip, Lower, IsUnique, IsUsername, HasSubject, HasName;
    UsernamesAre(Lower(Strip(claim.username)));
    hide NormaliseUsername;
    MatchIs(users, claim, Lower(Strip(claim.username)), id);
  }

  // ----- the forms -----

  /** The role field of an edit, which when blank means the role the row has. */
  function RoleOf(u: User, edit: Edit): string {
    Strip(if edit.role == "" then u.role else edit.role)
  }

  predicate IsRole(role: string) {
    role == "admin" || role == "operator" || role == "user"
  }

  /** Another row is an active administrator's. */
  ghost predicate HasOtherAdmin(users: Users, id: nat) {
    exists i :: i in users && i != id && users[i].role == "admin" && users[i].isActive
  }

  /** An edit is made if and only if the role is one of the panel's, no administrator is lost who is the only active
      one, nobody deactivates themselves, and a new password of a local account is fine. */
  lemma EditedIff(users: Users, actor: nat, id: nat, edit: Edit, passwordIsFine: bool)
    ensures MayEdit(users, actor, id, edit, passwordIsFine) <==>
      && id in users && IsRole(RoleOf(users[id], edit))
      && (users[id].role == "admin" && (RoleOf(users[id], edit) != "admin" || !edit.isActive) ==>
            HasOtherAdmin(users, id))
      && !(id == actor && !edit.isActive)
      && (users[id].source == "local" && edit.newPassword != "" ==> passwordIsFine)
  {
    hide Strip;
    OthersAre(users, id);
  }

  /** A row is deleted if and only if it is there, is not the actor's own, and is not an administrator's without another
      active one. */
  lemma RemovedIff(users: Users, actor: nat, id: nat)
    ensures MayDelete(users, actor, id) <==>
      id in users && id != actor && (users[id].role == "admin" ==> HasOtherAdmin(users, id))
  {
    OthersAre(users, id);
  }

  lemma OthersAre(users: Users, id: nat)
    ensures OtherAdmins(users, id) != {} <==> HasOtherAdmin(users, id)
  {
    if HasOtherAdmin(users, id) {
      var i :| i in users && i != id && users[i].role == "admin" && users[i].isActive;
      assert i in OtherAdmins(users, id);
    }
  }

  /** What an edit leaves. On an external account a role chosen by hand is pinned until the checkbox hands it back, and
      the rest is the directory's; a local account is never pinned, and has the details of the form. */
  lemma EditLeaves(u: User, edit: Edit, hash: string -> string)
    requires IsSoundRow(u)
    ensures var v, isLocal := Edited(u, edit, hash), u.source == "local";
      && v.role == RoleOf(u, edit) && v.isActive == edit.isActive
      && (v.roleLocked <==> !isLocal && !edit.roleFromDirectory && (u.roleLocked || RoleOf(u, edit) != u.role))
      && v.displayName == (if isLocal then Strip(edit.displayName) else u.displayName)
      && v.email == (if isLocal then Strip(edit.email) else u.email)
      && v.passwordHash ==
           (if isLocal && edit.newPassword != "" then Some(hash(edit.newPassword)) else u.passwordHash)
      && v.username == u.username && v.source == u.source && v.provider == u.provider
      && v.externalId == u.externalId && v.lastGroups == u.lastGroups
  {
    hide Strip, IsLower;
  }

  /** A local account is made if and only if it has a name that no row has in any case, one of the panel's roles, and a
      password that is fine and confirmed; and this is its row. */
  lemma CreationIs(users: Users, form: NewUser, passwordIsFine: bool, hash: string -> string, users': Users,
                   id: Option<nat>)
    requires IsSound(users) && IsCreation(users, form, passwordIsFine, hash, users', id)
    ensures id.Some? <==>
      && Lower(Strip(form.username)) != "" && IsRole(Strip(form.role)) && form.password == form.confirm
      && passwordIsFine && forall i :: i in users ==> Lower(users[i].username) != Lower(Strip(form.username))
    ensures id.Some? ==>
      && id.value in users' && id.value !in users
      && users'[id.value] ==
           User(Lower(Strip(form.username)), Strip(form.email), Strip(form.displayName), "local", "", None,
                Some(hash(form.password)), Strip(form.role), false, "", true)
      && forall i :: i != id.value ==> (i in users' <==> i in users) && (i in users ==> users'[i] == users[i])
    ensures id.None? ==> users' == users
  {
    hide Strip, Lower, IsUnique, IsSoundRow;
    FoldIs(form.username);
    assert forall i :: i in users ==>
      (HasName(users[i], Fold(form.username)) <==> Lower(users[i].username) == Lower(Strip(form.username)));
  }

  // ----- runs -----

  /** The event is a sign-in that reached this row. */
  ghost predicate Reaches(users: Users, e: Event, users': Users, id: nat) {
    e.SignIn? && IsSignIn(users, e.claim, e.role, users', SignedIn(id))
  }

  lemma OtherEventsLeaveRow(users: Users, e: Event, users': Users, hash: string -> string, id: nat)
    requires IsStep(users, e, users', hash) && !Handles(e, id) && !Reaches(users, e, users', id) && id in users
    ensures id in users' && users'[id] == users[id]
  {
    hide IsUnique, HasSubject, HasName, NormaliseUsername, Edited, MayEdit, MayDelete, Refreshed, MayCreate;
  }

  /** Whatever a run does, a row stays as it is until a sign-in reaches it or an administrator edits or removes it. */
  lemma {:induction false} RunLeavesRow(states: seq<Users>, events: seq<Event>, hash: string -> string, j: nat, k: nat,
                                        id: nat)
    requires IsRun(states, events, hash) && j <= k < |states| && id in states[j]
    requires forall i :: j <= i < k ==> !Handles(events[i], id) && !Reaches(states[i], events[i], states[i + 1], id)
    ensures id in states[k] && states[k][id] == states[j][id]
  {
    hide IsStep, Reaches, Handles;
    if j < k {
      RunLeavesRow(states, events, hash, j, k - 1, id);
      OtherEventsLeaveRow(states[k - 1], events[k - 1], states[k], hash, id);
    }
  }

  /** So after any run an unpinned account that nobody has edited since has the role and the name that the directory
      gave it at its last sign-in. */
  lemma RoleIsTheDirectorys(states: seq<Users>, events: seq<Event>, hash: string -> string, j: nat, k: nat, id: nat)
    requires IsRun(states, events, hash) && j < k < |states| && Reaches(states[j], events[j], states[j + 1], id)
    requires id in states[j] ==> !states[j][id].roleLocked
    requires forall i :: j < i < k ==> !Handles(events[i], id) && !Reaches(states[i], events[i], states[i + 1], id)
    ensures id in states[k] && Some(states[k][id].role) == events[j].role && !states[k][id].roleLocked
    ensures states[k][id].username == Lower(Strip(events[j].claim.username)) && states[k][id].isActive
  {
    hide IsStep, IsSignIn, Handles, Strip, Lower;
    SignInLeaves(states[j], events[j].claim, events[j].role, states[j + 1], id);
    RunLeavesRow(states, events, hash, j + 1, k, id);
  }
}
