/** The user table: external sign-in, administration, and what no interleaving of the two can do. */
module Accounts {
  import opened PyText

  const LOCAL := "local"
  const ADMIN := "admin"
  const ROLES := {"admin", "operator", "user"}

  datatype User = User(username: string, email: string, displayName: string, source: string, provider: string,
                       externalId: Option<string>, passwordHash: Option<string>, role: string, roleLocked: bool,
                       lastGroups: string, isActive: bool)
  {
    predicate IsLocal() { source == LOCAL }

    predicate IsAdmin() { role == ADMIN }
  }

  type Users = map<nat, User>

  /** What a backend learned about the person signing in, its text already trimmed. */
  datatype Claim = Claim(username: string, source: string, provider: string, externalId: Option<string>, email: string,
                         displayName: string, groups: string)

  datatype Answer =
    | SignedIn(id: nat)
    /** A `ProvisioningError`. */
    | Refused
    /** The commit violated a unique constraint. */
    | Conflict

  /** The characters a username may have. */
  predicate IsUsernameChar(c: char) {
    'a' <= c <= 'z' || 'A' <= c <= 'Z' || '0' <= c <= '9' || c in "._@+-"
  }

  /** `normalise_username`; `None` stands for `ProvisioningError`. */
  function NormaliseUsername(raw: string): (name: Option<string>)
    ensures name.Some? ==> name.value != "" && IsLower(name.value)
  {
    var username := Fold(raw);
    if 1 <= |username| <= 190 && forall i :: 0 <= i < |username| ==> IsUsernameChar(username[i]) then Some(username)
    else None
  }

  /** What a stored username of an external account looks like. */
  predicate IsUsername(name: string) {
    1 <= |name| <= 190 && forall i :: 0 <= i < |name| ==>
      'a' <= name[i] <= 'z' || '0' <= name[i] <= '9'
      || name[i] == '.' || name[i] == '_' || name[i] == '@' || name[i] == '+' || name[i] == '-'
  }

  /** The names that come out are exactly those, and they go in unchanged; whatever goes in comes out trimmed and in
      lower case. */
  lemma UsernamesAre(name: string)
    ensures (exists raw :: NormaliseUsername(raw) == Some(name)) <==> IsUsername(name)
    ensures IsUsername(name) <==> NormaliseUsername(name) == Some(name)
    ensures forall raw ::
      NormaliseUsername(raw) == if IsUsername(Lower(Strip(raw))) then Some(Lower(Strip(raw))) else None
  {
    hide Fold, Strip;
    forall s: string ensures IsLower(s) && (forall i :: 0 <= i < |s| ==> IsUsernameChar(s[i])) && 1 <= |s| <= 190 <==>
      IsUsername(s)
    {
      UsernameCharsAre(s);
    }
    forall raw: string ensures Fold(raw) == Lower(Strip(raw)) { FoldIs(raw); }
    if IsUsername(name) {
      assert IsUsernameChar(name[0]) && IsUsernameChar(name[|name| - 1]);
      assert IsTrimmed(name) && Fold(name) == name;
      assert NormaliseUsername(name) == Some(name);
    }
  }

  lemma FoldIs(raw: string)
    ensures Fold(raw) == Lower(Strip(raw))
  {
  }

  lemma UsernameCharsAre(s: string)
    ensures IsLower(s) && (forall i :: 0 <= i < |s| ==> IsUsernameChar(s[i])) && 1 <= |s| <= 190 <==> IsUsername(s)
  {
    forall i | 0 <= i < |s|
      ensures IsUsernameChar(s[i]) && !IsUpper(s[i]) <==>
        'a' <= s[i] <= 'z' || '0' <= s[i] <= '9'
        || s[i] == '.' || s[i] == '_' || s[i] == '@' || s[i] == '+' || s[i] == '-'
    {
    }
  }

  // ----- the table's constraints -----

  /** `unique=True` on the username, and `uq_users_provider_external_id`, in which NULLs never collide. */
  predicate IsUnique(users: Users) {
    && (forall i, j | i in users && j in users :: users[i].username == users[j].username ==> i == j)
    && (forall i, j | i in users && j in users :: SameSubject(users[i], users[j]) ==> i == j)
  }

  predicate SameSubject(u: User, v: User) {
    u.externalId.Some? && u.provider == v.provider && u.externalId == v.externalId
  }

  /** The row carries the claim's stable subject. */
  predicate HasSubject(u: User, claim: Claim) {
    claim.externalId.Some? && claim.provider != "" && u.provider == claim.provider && u.externalId == claim.externalId
  }

  predicate HasName(u: User, username: string) {
    Lower(u.username) == username
  }

  /** The row after a sign-in: directory attributes are taken over, and the role too unless it is pinned. */
  function Refreshed(u: User, username: string, claim: Claim, role: string): User {
    User(username,
         if claim.email != "" then claim.email else u.email,
         if claim.displayName != "" then claim.displayName else u.displayName,
         claim.source, claim.provider,
         if claim.externalId.Some? then claim.externalId else u.externalId,
         u.passwordHash,
         if u.roleLocked then u.role else role,
         u.roleLocked, claim.groups, u.isActive)
  }

  function Provisioned(username: string, claim: Claim, role: string): User {
    User(username, "", "", claim.source, claim.provider, claim.externalId, None, role, false, "", true)
  }

  /** The row a sign-in works on: the subject's if there is one, else the name's, else a new one. */
  ghost predicate IsMatch(users: Users, claim: Claim, username: string, id: nat) {
    if exists i :: i in users && HasSubject(users[i], claim) then id in users && HasSubject(users[id], claim)
    else if exists i :: i in users && HasName(users[i], username) then id in users && HasName(users[id], username)
    else id !in users
  }

  /** A row that may not sign in: deactivated, or a local account that merely has the name. */
  predicate IsBarred(users: Users, claim: Claim, id: nat) {
    id in users && (!users[id].isActive || (users[id].IsLocal() && !HasSubject(users[id], claim)))
  }

  /** The table a sign-in tries to commit. */
  function Committed(users: Users, claim: Claim, username: string, role: string, id: nat): Users {
    var row := if id in users then users[id] else Provisioned(username, claim, role);
    users[id := Refreshed(row, username, claim, role)]
  }

  /** What a sign-in does to the table, and when it does it. */
  ghost predicate IsSignIn(users: Users, claim: Claim, role: Option<string>, users': Users, answer: Answer) {
    var name := NormaliseUsername(claim.username);
    match answer
    case Refused =>
      users' == users
      && (role.None? || name.None? || exists id :: IsMatch(users, claim, name.value, id) && IsBarred(users, claim, id))
    case Conflict =>
      users' == users && role.Some? && name.Some?
      && exists id ::
        && IsMatch(users, claim, name.value, id) && !IsBarred(users, claim, id)
        && !IsUnique(Committed(users, claim, name.value, role.value, id))
    case SignedIn(id) =>
      && role.Some? && name.Some? && IsMatch(users, claim, name.value, id) && !IsBarred(users, claim, id)
      && users' == Committed(users, claim, name.value, role.value, id) && IsUnique(users')
  }

  /** The form an administrator creates a local user with. */
  datatype NewUser = NewUser(username: string, password: string, confirm: string, role: string, email: string,
                             displayName: string)

  /** The form an administrator edits a user with. */
  datatype Edit = Edit(role: string, isActive: bool, roleFromDirectory: bool, displayName: string, email: string,
                       newPassword: string)

  /** The row an edit leaves: picking a role by hand pins it on an external account, the checkbox hands it back. */
  function Edited(u: User, edit: Edit, hash: string -> string): User {
    var role := Strip(if edit.role == "" then u.role else edit.role);
    var pinned := if !u.IsLocal() && edit.roleFromDirectory then false
                  else u.roleLocked || (u.role != role && !u.IsLocal());
    var v := u.(role := role, roleLocked := pinned, isActive := edit.isActive);
    if !u.IsLocal() then v
    else v.(displayName := Strip(edit.displayName), email := Strip(edit.email),
            passwordHash := if edit.newPassword == "" then u.passwordHash else Some(hash(edit.newPassword)))
  }

  /** The active administrators other than one row. */
  function OtherAdmins(users: Users, id: nat): set<nat> {
    set i | i in users && users[i].IsAdmin() && users[i].isActive && i != id
  }

  /** The assignments of an edit, in order. */
  method ApplyEdit(user: User, edit: Edit, hash: string -> string) returns (edited: User)
    ensures edited == Edited(user, edit, hash)
  {
    hide Strip;
    var role := Strip(if edit.role == "" then user.role else edit.role);
    edited := user.(isActive := edit.isActive);
    if user.role != role {
      edited := edited.(role := role, roleLocked := user.roleLocked || !user.IsLocal());
    }
    if !user.IsLocal() && edit.roleFromDirectory { edited := edited.(roleLocked := false); }
    if user.IsLocal() {
      edited := edited.(displayName := Strip(edit.displayName), email := Strip(edit.email));
      if edit.newPassword != "" { edited := edited.(passwordHash := Some(hash(edit.newPassword))); }
    }
  }

  class UserTable {
    var users: Users

    constructor ()
      ensures users == map[]
    {
      users := map[];
    }

    /** Finds or creates the user for a claim; `role` is what the group mapping resolved to. */
    method ResolveIdentity(claim: Claim, role: Option<string>) returns (answer: Answer)
      modifies this
      ensures IsSignIn(old(users), claim, role, users, answer)
    {
      hide NormaliseUsername, IsUnique, HasName, Refreshed;
      if role.None? { return Refused; }
      var name := NormaliseUsername(claim.username);
      if name.None? { return Refused; }
      var id: nat;
      if i :| i in users && HasSubject(users[i], claim) {
        id := i;
      } else if i :| i in users && HasName(users[i], name.value) {
        id := i;
      } else {
        id :| id !in users by { FreshId(users); }
      }
      assert IsMatch(users, claim, name.value, id);
      if id in users {
        if users[id].IsLocal() && !HasSubject(users[id], claim) { return Refused; }
        if !users[id].isActive { return Refused; }
      }
      var committed := Committed(users, claim, name.value, role.value, id);
      if !IsUnique(committed) { return Conflict; }
      users := committed;
      return SignedIn(id);
    }

    /** Creates a local user; `passwordIsFine` is the verdict of the password rules. */
    method CreateUser(form: NewUser, passwordIsFine: bool, hash: string -> string) returns (id: Option<nat>)
      modifies this
      ensures IsCreation(old(users), form, passwordIsFine, hash, users, id)
    {
      hide IsUnique, HasName, Fold, Strip;
      var username := Fold(form.username);
      var role := Strip(form.role);
      if username == "" || role !in ROLES || form.password != form.confirm || !passwordIsFine { return None; }
      if exists i :: i in users && HasName(users[i], username) { return None; }
      var newId: nat :| newId !in users by { FreshId(users); }
      var committed := users[newId := LocalUser(username, form, role, hash)];
      if IsUnique(users) { NewNameIsUnique(users, newId, committed[newId]); }
      if !IsUnique(committed) { return None; }
      users := committed;
      return Some(newId);
    }

    method UpdateUser(actor: nat, id: nat, edit: Edit, passwordIsFine: bool, hash: string -> string)
      returns (done: bool)
      modifies this
      ensures done <==> MayEdit(old(users), actor, id, edit, passwordIsFine)
      ensures users == if done then old(users)[id := Edited(old(users)[id], edit, hash)] else old(users)
    {
      hide Strip, OtherAdmins;
      if id !in users { return false; }
      var user := users[id];
      var role := Strip(if edit.role == "" then user.role else edit.role);
      if role !in ROLES { return false; }
      if user.IsAdmin() && (role != ADMIN || !edit.isActive) {
        var remaining := OtherAdmins(users, id);
        if remaining == {} { return false; }
      }
      if id == actor && !edit.isActive { return false; }
      // The row is only committed once the password is fine.
      if user.IsLocal() && edit.newPassword != "" && !passwordIsFine { return false; }
      var edited := ApplyEdit(user, edit, hash);
      users := users[id := edited];
      return true;
    }

    method DeleteUser(actor: nat, id: nat) returns (done: bool)
      modifies this
      ensures done <==> MayDelete(old(users), actor, id)
      ensures users == if done then old(users) - {id} else old(users)
    {
      if id !in users || id == actor { return false; }
      if users[id].IsAdmin() {
        var remaining := OtherAdmins(users, id);
        if remaining == {} { return false; }
      }
      users := users - {id};
      return true;
    }
  }

  function LocalUser(username: string, form: NewUser, role: string, hash: string -> string): User {
    User(username, Strip(form.email), Strip(form.displayName), LOCAL, "", None, Some(hash(form.password)), role,
         false, "", true)
  }

  /** A name no row has goes in without a conflict. */
  lemma NewNameIsUnique(users: Users, id: nat, u: User)
    requires IsUnique(users) && id !in users && u.externalId.None? && Lower(u.username) == u.username
    requires forall i :: i in users ==> !HasName(users[i], u.username)
    ensures IsUnique(users[id := u])
  {
    hide Lower;
    forall i | i in users ensures users[i].username != u.username {
      assert !HasName(users[i], u.username);
    }
  }

  predicate MayCreate(users: Users, form: NewUser, passwordIsFine: bool) {
    && Fold(form.username) != "" && Strip(form.role) in ROLES && form.password == form.confirm && passwordIsFine
    && forall i | i in users :: !HasName(users[i], Fold(form.username))
  }

  ghost predicate IsCreation(users: Users, form: NewUser, passwordIsFine: bool, hash: string -> string, users': Users,
                             id: Option<nat>)
  {
    match id
    case None => users' == users && !(MayCreate(users, form, passwordIsFine) && IsUnique(users))
    case Some(i) =>
      && MayCreate(users, form, passwordIsFine) && i !in users && IsUnique(users')
      && users' == users[i := LocalUser(Fold(form.username), form, Strip(form.role), hash)]
  }

  predicate MayEdit(users: Users, actor: nat, id: nat, edit: Edit, passwordIsFine: bool) {
    && id in users
    && var user := users[id];
       var role := Strip(if edit.role == "" then user.role else edit.role);
       && role in ROLES
       && (user.IsAdmin() && (role != ADMIN || !edit.isActive) ==> OtherAdmins(users, id) != {})
       && (id == actor ==> edit.isActive)
       && (user.IsLocal() && edit.newPassword != "" ==> passwordIsFine)
  }

  predicate MayDelete(users: Users, actor: nat, id: nat) {
    id in users && id != actor && (users[id].IsAdmin() ==> OtherAdmins(users, id) != {})
  }

  lemma FreshId(users: Users)
    ensures exists id: nat :: id !in users
  {
    var b := Above(users.Keys);
    assert b !in users;
  }

  lemma {:induction false} Above(ids: set<nat>) returns (b: nat)
    ensures forall i :: i in ids ==> i < b
    decreases |ids|
  {
    b := 0;
    if ids != {} {
      var i :| i in ids;
      var c := Above(ids - {i});
      b := if i < c then c else i + 1;
      assert forall j :: j in ids ==> j == i || j in ids - {i};
    }
  }
}
