/** Roles, grants and the rule of the last Super Admin, over every run of the operations that change them. */
module Roles {
  import opened Common

  const SUPER_ADMIN := "SUPER_ADMIN"

  datatype Role = Role(system: bool, permissions: set<string>)

  /** Roles under their unique names, grants as rows of user and role, users and whether they are soft-deleted. */
  datatype Store = Store(roles: map<string, Role>, grants: set<(nat, string)>, users: map<nat, bool>,
                         catalog: set<string>)

  function HolderRows(s: Store): set<(nat, string)> {
    set g | g in s.grants && g.1 == SUPER_ADMIN
  }

  /** Soft-deleted holders are counted as well. */
  function CountSuperAdmins(s: Store): nat {
    |HolderRows(s)|
  }

  predicate Exists(s: Store, user: nat) {
    user in s.users && !s.users[user]
  }

  // ---- Operations -----------------------------------------------------------------------------

  /** What an operation leaves, and whether it completed; writes made before it threw stay. */
  type Result = (Store, bool)

  function AssignRole(s: Store, user: nat, role: string): Result {
    if role in s.roles && user in s.users then (s.(grants := s.grants + {(user, role)}), true) else (s, false)
  }

  function RemoveRole(s: Store, user: nat, role: string): Result {
    if role !in s.roles || (role == SUPER_ADMIN && CountSuperAdmins(s) <= 1) then (s, false)
    else (s.(grants := s.grants - {(user, role)}), true)
  }

  /** Removes the roles of `current` that are not in `wanted`, in order, until one removal throws. */
  function RemoveUnwanted(s: Store, user: nat, current: seq<string>, wanted: seq<string>): Result {
    if current == [] then (s, true)
    else
      var (before, ok) := RemoveUnwanted(s, user, current[..|current| - 1], wanted);
      var role := current[|current| - 1];
      if !ok || role in wanted then (before, ok) else RemoveRole(before, user, role)
  }

  function AddMissing(s: Store, user: nat, current: seq<string>, wanted: seq<string>): Result {
    if wanted == [] then (s, true)
    else
      var (before, ok) := AddMissing(s, user, current, wanted[..|wanted| - 1]);
      var role := wanted[|wanted| - 1];
      if !ok || role in current then (before, ok) else AssignRole(before, user, role)
  }

  /** `current` lists the roles the user holds, in the order the query returns them. */
  function SetUserRoles(s: Store, user: nat, current: seq<string>, wanted: seq<string>): Result {
    if !Exists(s, user) then (s, false)
    else
      var (removed, ok) := RemoveUnwanted(s, user, current, wanted);
      if !ok then (removed, false) else AddMissing(removed, user, current, wanted)
  }

  ghost predicate RolesOf(s: Store, user: nat, current: seq<string>) {
    forall role :: role in current <==> (user, role) in s.grants
  }

  function DeleteUser(s: Store, user: nat): Result {
    if Exists(s, user) then (s.(users := s.users[user := true]), true) else (s, false)
  }

  /** The role is stored before its permissions are checked. */
  function CreateRole(s: Store, name: string, permissions: set<string>): Result {
    if name == "" || name in s.roles then (s, false)
    else SetPermissions(s.(roles := s.roles[name := Role(false, {})]), name, permissions)
  }

  function SetPermissions(s: Store, name: string, permissions: set<string>): Result
    requires name in s.roles
  {
    if "*" in permissions then (s, false)
    else (s.(roles := s.roles[name := s.roles[name].(permissions := permissions * s.catalog)]), true)
  }

  function UpdateRole(s: Store, name: string, permissions: Option<set<string>>): Result {
    if name !in s.roles || s.roles[name].system then (s, false)
    else if permissions.None? then (s, true)
    else SetPermissions(s, name, permissions.value)
  }

  function DeleteRole(s: Store, name: string): Result {
    if name !in s.roles || s.roles[name].system || (exists g :: g in s.grants && g.1 == name) then (s, false)
    else (s.(roles := s.roles - {name}), true)
  }

  /** First run: refused once anybody holds the role; `allowed` stands for the secret, e-mail and password checks. */
  function Bootstrap(s: Store, user: nat, allowed: bool): Result {
    if CountSuperAdmins(s) > 0 || !allowed || user in s.users then (s, false)
    else AssignRole(s.(users := s.users[user := false]), user, SUPER_ADMIN)
  }

  /** A new user and the roles it starts with, in one transaction. */
  function CreateUser(s: Store, user: nat, roles: seq<string>): Result {
    if user in s.users then (s, false)
    else
      var (after, ok) := AddMissing(s.(users := s.users[user := false]), user, [], roles);
      if ok then (after, true) else (s, false)
  }

  datatype Event =
    | Assign(user: nat, role: string)
    | Remove(user: nat, role: string)
    | SetRoles(user: nat, current: seq<string>, wanted: seq<string>)
    | Delete(user: nat)
    | NewRole(name: string, permissions: set<string>)
    | ChangeRole(name: string, newPermissions: Option<set<string>>)
    | DropRole(name: string)
    | FirstRun(user: nat, allowed: bool)
    | NewUser(user: nat, roles: seq<string>)

  function Step(s: Store, e: Event): Result {
    match e
    case Assign(user, role) => AssignRole(s, user, role)
    case Remove(user, role) => RemoveRole(s, user, role)
    case SetRoles(user, current, wanted) => SetUserRoles(s, user, current, wanted)
    case Delete(user) => DeleteUser(s, user)
    case NewRole(name, permissions) => CreateRole(s, name, permissions)
    case ChangeRole(name, permissions) => UpdateRole(s, name, permissions)
    case DropRole(name) => DeleteRole(s, name)
    case FirstRun(user, allowed) => Bootstrap(s, user, allowed)
    case NewUser(user, roles) => CreateUser(s, user, roles)
  }

  function Run(s: Store, events: seq<Event>): Store {
    if events == [] then s else Step(Run(s, events[..|events| - 1]), events[|events| - 1]).0
  }

  // ---- The last Super Admin --------------------------------------------------------------------------

  /** Grants name stored users and roles. */
  ghost predicate Referential(s: Store) {
    forall g :: g in s.grants ==> g.0 in s.users && g.1 in s.roles
  }

  ghost predicate HasHolder(s: Store) {
    exists user :: (user, SUPER_ADMIN) in s.grants
  }

  lemma HolderIffCounted(s: Store)
    ensures HasHolder(s) <==> CountSuperAdmins(s) > 0
  {
    if HasHolder(s) {
      var user :| (user, SUPER_ADMIN) in s.grants;
      assert (user, SUPER_ADMIN) in HolderRows(s);
    } else {
      assert forall g :: g !in HolderRows(s);
      assert HolderRows(s) == {};
    }
  }

  /** What the grants of one operation may do: the laws of the store, and never the loss of the last holder. */
  ghost predicate Safe(before: Store, after: Store) {
    (Referential(before) ==> Referential(after)) && (HasHolder(before) ==> HasHolder(after))
  }

  lemma AssignIsSafe(s: Store, user: nat, role: string)
    ensures Safe(s, AssignRole(s, user, role).0)
  {
    assert HasHolder(s) ==>
        forall u :: (u, SUPER_ADMIN) in s.grants ==> (u, SUPER_ADMIN) in AssignRole(s, user, role).0.grants;
  }

  lemma RemoveIsSafe(s: Store, user: nat, role: string)
    ensures Safe(s, RemoveRole(s, user, role).0)
  {
    var after := RemoveRole(s, user, role).0;
    if HasHolder(s) && after != s {
      if role == SUPER_ADMIN {
        assert HolderRows(after) == HolderRows(s) - {(user, SUPER_ADMIN)};
        HolderIffCounted(after);
      } else {
        var u :| (u, SUPER_ADMIN) in s.grants;
        assert (u, SUPER_ADMIN) in after.grants;
      }
    }
  }

  lemma {:induction false} RemoveUnwantedIsSafe(s: Store, user: nat, current: seq<string>, wanted: seq<string>)
    ensures Safe(s, RemoveUnwanted(s, user, current, wanted).0)
  {
    hide RemoveRole, Referential, HasHolder;
    if current != [] {
      RemoveUnwantedIsSafe(s, user, current[..|current| - 1], wanted);
      RemoveIsSafe(RemoveUnwanted(s, user, current[..|current| - 1], wanted).0, user, current[|current| - 1]);
    }
  }

  lemma {:induction false} AddMissingIsSafe(s: Store, user: nat, current: seq<string>, wanted: seq<string>)
    ensures Safe(s, AddMissing(s, user, current, wanted).0)
  {
    hide AssignRole, Referential, HasHolder;
    if wanted != [] {
      AddMissingIsSafe(s, user, current, wanted[..|wanted| - 1]);
      AssignIsSafe(AddMissing(s, user, current, wanted[..|wanted| - 1]).0, user, wanted[|wanted| - 1]);
    }
  }

  lemma StepIsSafe(s: Store, e: Event)
    ensures Safe(s, Step(s, e).0)
  {
    hide AssignRole, RemoveRole, RemoveUnwanted, AddMissing;
    match e
    case Assign(user, role) => AssignIsSafe(s, user, role);
    case Remove(user, role) => RemoveIsSafe(s, user, role);
    case SetRoles(user, current, wanted) =>
      RemoveUnwantedIsSafe(s, user, current, wanted);
      AddMissingIsSafe(RemoveUnwanted(s, user, current, wanted).0, user, current, wanted);
    case FirstRun(user, _) => AssignIsSafe(s.(users := s.users[user := false]), user, SUPER_ADMIN);
    case NewUser(user, roles) => AddMissingIsSafe(s.(users := s.users[user := false]), user, [], roles);
    case _ =>
  }

  /**
   * Once somebody holds SUPER_ADMIN somebody always does, over every run, role changes that fail halfway and role
   * deletions included; and the first-run bootstrap stays closed.
   */
  lemma {:induction false} SomebodyStaysSuperAdmin(s: Store, events: seq<Event>)
    requires Referential(s) && HasHolder(s)
    ensures var after := Run(s, events);
            && Referential(after) && HasHolder(after)
            && forall user, allowed :: Bootstrap(after, user, allowed) == (after, false)
  {
    if events != [] {
      SomebodyStaysSuperAdmin(s, events[..|events| - 1]);
      StepIsSafe(Run(s, events[..|events| - 1]), events[|events| - 1]);
    }
    HolderIffCounted(Run(s, events));
  }

  // ---- Setting a user's roles -------------------------------------------------------------------------

  lemma {:induction false} RemovedAre(s: Store, user: nat, current: seq<string>, wanted: seq<string>)
    ensures var (after, ok) := RemoveUnwanted(s, user, current, wanted);
            && after == s.(grants := after.grants)
            && (forall g :: g in after.grants ==> g in s.grants)
            && (forall g :: g in s.grants && g !in after.grants ==> g.0 == user && g.1 in current && g.1 !in wanted)
            && (ok ==> forall role :: role in current && role !in wanted ==> (user, role) !in after.grants)
  {
    if current != [] {
      RemovedAre(s, user, current[..|current| - 1], wanted);
      assert current == current[..|current| - 1] + [current[|current| - 1]];
      hide CountSuperAdmins;
    }
  }

  lemma {:induction false} AddedAre(s: Store, user: nat, current: seq<string>, wanted: seq<string>)
    ensures var (after, ok) := AddMissing(s, user, current, wanted);
            && after == s.(grants := after.grants)
            && (forall g :: g in s.grants ==> g in after.grants)
            && (forall g :: g in after.grants && g !in s.grants ==> g.0 == user && g.1 in wanted && g.1 !in current)
            && (ok ==> forall role :: role in wanted && role !in current ==> (user, role) in after.grants)
            && (ok <==> (user in s.users || forall role :: role in wanted ==> role in current)
                        && forall role :: role in wanted && role !in current ==> role in s.roles)
  {
    if wanted != [] {
      AddedAre(s, user, current, wanted[..|wanted| - 1]);
      assert wanted == wanted[..|wanted| - 1] + [wanted[|wanted| - 1]];
    }
  }

  /**
   * A completed change leaves the user exactly the requested roles. A change that threw leaves some roles removed or
   * added, but only ones that the change was to remove or add. Nobody else's roles change.
   */
  lemma SetUserRolesLeaves(s: Store, user: nat, current: seq<string>, wanted: seq<string>)
    requires RolesOf(s, user, current)
    ensures var (after, ok) := SetUserRoles(s, user, current, wanted);
            && (ok ==> RolesOf(after, user, wanted))
            && (forall role :: role in current && role in wanted ==> (user, role) in after.grants)
            && (forall role :: (user, role) in after.grants ==> role in current || role in wanted)
            && (forall g: (nat, string) :: g.0 != user ==> (g in after.grants <==> g in s.grants))
  {
    RemovedAre(s, user, current, wanted);
    AddedAre(RemoveUnwanted(s, user, current, wanted).0, user, current, wanted);
    hide RemoveUnwanted, AddMissing;
  }

  /** Removals go through exactly when they do not take the role from the last Super Admin. */
  lemma {:induction false} RemovalsSucceedIff(s: Store, user: nat, current: seq<string>, wanted: seq<string>)
    requires Distinct(current) && forall role :: role in current ==> (user, role) in s.grants && role in s.roles
    ensures RemoveUnwanted(s, user, current, wanted).1
            <==> !(SUPER_ADMIN in current && SUPER_ADMIN !in wanted && CountSuperAdmins(s) <= 1)
  {
    if current != [] {
      var n := |current| - 1;
      var first, role := current[..n], current[n];
      assert current == first + [role];
      RemovalsSucceedIff(s, user, first, wanted);
      RemovedAre(s, user, first, wanted);
      var before := RemoveUnwanted(s, user, first, wanted).0;
      if SUPER_ADMIN !in first {
        assert HolderRows(before) == HolderRows(s);
      }
    }
  }

  /** When a change of roles completes: a condition on the user, the requested names and the last Super Admin. */
  lemma SetUserRolesSucceedsIff(s: Store, user: nat, current: seq<string>, wanted: seq<string>)
    requires Referential(s) && RolesOf(s, user, current) && Distinct(current)
    ensures SetUserRoles(s, user, current, wanted).1
            <==> Exists(s, user)
                 && (forall role :: role in wanted ==> role in s.roles)
                 && !((user, SUPER_ADMIN) in s.grants && SUPER_ADMIN !in wanted && CountSuperAdmins(s) <= 1)
  {
    assert forall role :: role in current ==> (user, role) in s.grants;
    RemovalsSucceedIff(s, user, current, wanted);
    RemovedAre(s, user, current, wanted);
    AddedAre(RemoveUnwanted(s, user, current, wanted).0, user, current, wanted);
    hide RemoveUnwanted, AddMissing, CountSuperAdmins;
  }

  // ---- Soft-deleted holders ---------------------------------------------------------------------------------

  ghost predicate LiveHolder(s: Store, user: nat) {
    (user, SUPER_ADMIN) in s.grants && Exists(s, user)
  }

  /** Deleting a user keeps a live Super Admin exactly when another live one exists: nothing guards the last one. */
  lemma DeletionKeepsLiveHolderIff(s: Store, user: nat)
    requires Exists(s, user) && exists u :: LiveHolder(s, u)
    ensures (exists u :: LiveHolder(DeleteUser(s, user).0, u)) <==> exists u :: u != user && LiveHolder(s, u)
  {
    var after := DeleteUser(s, user).0;
    assert forall u :: LiveHolder(after, u) <==> u != user && LiveHolder(s, u);
  }

  /**
   * Taking the role from a live holder keeps a live one exactly when another live one exists, or when it is refused.
   */
  lemma RemovalKeepsLiveHolderIff(s: Store, user: nat)
    requires LiveHolder(s, user) && SUPER_ADMIN in s.roles
    ensures (exists u :: LiveHolder(RemoveRole(s, user, SUPER_ADMIN).0, u))
            <==> CountSuperAdmins(s) == 1 || exists u :: u != user && LiveHolder(s, u)
  {
    var after := RemoveRole(s, user, SUPER_ADMIN).0;
    HolderIffCounted(s);
    assert HasHolder(s);
    assert after == s || forall u :: LiveHolder(after, u) <==> u != user && LiveHolder(s, u);
  }

  // ---- Permissions --------------------------------------------------------------------------------------------

  /** The permissions of the user's roles, and the whole catalog for a Super Admin. */
  function Permissions(s: Store, user: nat): set<string> {
    (set g, p | g in s.grants && g.0 == user && g.1 in s.roles && p in s.roles[g.1].permissions :: p)
    + if (user, SUPER_ADMIN) in s.grants && SUPER_ADMIN in s.roles then s.catalog else {}
  }

  predicate IsAllowed(s: Store, user: nat, permission: string) {
    ((user, SUPER_ADMIN) in s.grants && SUPER_ADMIN in s.roles) || permission in Permissions(s, user)
  }

  /** Enforcement and the reported permission set agree on every permission of the catalog. */
  lemma EnforcementAgrees(s: Store, user: nat, permission: string)
    requires permission in s.catalog
    ensures IsAllowed(s, user, permission) <==> permission in Permissions(s, user)
  {
  }

  /** User 1, and user 2 who is soft-deleted. */
  function TwoHolders(): Store {
    Store(map[SUPER_ADMIN := Role(true, {})], {(1, SUPER_ADMIN), (2, SUPER_ADMIN)}, map[1 := false, 2 := true], {})
  }

  /** Two holders, one of them soft-deleted: the live one can lose the role, and the bootstrap does not reopen. */
  lemma LiveSuperAdminsCanRunOut()
    ensures var s := TwoHolders();
            var (after, ok) := RemoveRole(s, 1, SUPER_ADMIN);
            && LiveHolder(s, 1) && ok && (forall u :: !LiveHolder(after, u))
            && forall user, allowed :: !Bootstrap(after, user, allowed).1
  {
    var s := TwoHolders();
    assert HolderRows(s) == {(1, SUPER_ADMIN), (2, SUPER_ADMIN)};
    var after := RemoveRole(s, 1, SUPER_ADMIN).0;
    assert (2, SUPER_ADMIN) in after.grants;
    HolderIffCounted(after);
    assert forall u :: LiveHolder(after, u) ==> u == 2;
  }

  // ---- The role service as it changes its tables ------------------------------------------------------------

  class RoleService {
    var roles: map<string, Role>
    var grants: set<(nat, string)>
    var users: map<nat, bool>
    var catalog: set<string>

    function View(): Store
      reads this
    {
      Store(roles, grants, users, catalog)
    }

    constructor (roles: map<string, Role>, users: map<nat, bool>, catalog: set<string>)
      ensures View() == Store(roles, {}, users, catalog)
    {
      this.roles, this.users, this.catalog := roles, users, catalog;
      grants := {};
    }

    method AssignRoleToUser(user: nat, role: string) returns (ok: bool)
      modifies this`grants
      ensures (View(), ok) == AssignRole(old(View()), user, role)
    {
      if role !in roles || user !in users {
        return false;
      }
      grants := grants + {(user, role)};
      return true;
    }

    method RemoveRoleFromUser(user: nat, role: string) returns (ok: bool)
      modifies this`grants
      ensures (View(), ok) == RemoveRole(old(View()), user, role)
    {
      if role !in roles {
        return false;
      }
      if role == SUPER_ADMIN {
        var count := |set g | g in grants && g.1 == SUPER_ADMIN|;
        if count <= 1 {
          return false;
        }
      }
      grants := grants - {(user, role)};
      return true;
    }

    /** First the removals, then the additions, one call each; the first that throws ends the change where it is. */
    method SetUserRolesOf(user: nat, current: seq<string>, wanted: seq<string>) returns (ok: bool)
      modifies this`grants
      ensures (View(), ok) == SetUserRoles(old(View()), user, current, wanted)
    {
      hide AssignRole, RemoveRole;
      if user !in users || users[user] {
        return false;
      }
      ghost var before := View();
      ok := true;
      for i := 0 to |current|
        invariant (View(), true) == RemoveUnwanted(before, user, current[..i], wanted)
      {
        assert current[..i + 1][..i] == current[..i];
        if current[i] !in wanted {
          ok := RemoveRoleFromUser(user, current[i]);
          if !ok {
            RemovalStops(before, user, current, wanted, i + 1);
            return;
          }
        }
      }
      assert current[..|current|] == current;
      ghost var removed := View();
      for i := 0 to |wanted|
        invariant (View(), true) == AddMissing(removed, user, current, wanted[..i])
      {
        assert wanted[..i + 1][..i] == wanted[..i];
        if wanted[i] !in current {
          ok := AssignRoleToUser(user, wanted[i]);
          if !ok {
            AdditionStops(removed, user, current, wanted, i + 1);
            return;
          }
        }
      }
      assert wanted[..|wanted|] == wanted;
      return true;
    }

    method DeleteUserById(user: nat) returns (ok: bool)
      modifies this`users
      ensures (View(), ok) == DeleteUser(old(View()), user)
    {
      ok := user in users && !users[user];
      if ok {
        users := users[user := true];
      }
    }

    method SetRolePermissions(name: string, permissions: set<string>) returns (ok: bool)
      requires name in roles
      modifies this`roles
      ensures (View(), ok) == SetPermissions(old(View()), name, permissions)
    {
      if "*" in permissions {
        return false;
      }
      roles := roles[name := roles[name].(permissions := {})];
      roles := roles[name := roles[name].(permissions := permissions * catalog)];
      assert roles == old(roles)[name := old(roles[name]).(permissions := permissions * catalog)];
      return true;
    }

    /** A role whose permissions are refused has already been stored, without any. */
    method AddRole(name: string, permissions: set<string>) returns (ok: bool)
      modifies this`roles
      ensures (View(), ok) == CreateRole(old(View()), name, permissions)
    {
      if name == "" || name in roles {
        return false;
      }
      roles := roles[name := Role(false, {})];
      ok := SetRolePermissions(name, permissions);
    }

    method ChangeRolePermissions(name: string, permissions: Option<set<string>>) returns (ok: bool)
      modifies this`roles
      ensures (View(), ok) == UpdateRole(old(View()), name, permissions)
    {
      if name !in roles || roles[name].system {
        return false;
      }
      ok := true;
      if permissions.Some? {
        ok := SetRolePermissions(name, permissions.value);
      }
    }

    method DropRoleByName(name: string) returns (ok: bool)
      modifies this`roles
      ensures (View(), ok) == DeleteRole(old(View()), name)
    {
      if name !in roles || roles[name].system {
        return false;
      }
      if exists g :: g in grants && g.1 == name {
        return false;
      }
      roles := roles - {name};
      return true;
    }

    method BootstrapSuperAdmin(user: nat, allowed: bool) returns (ok: bool)
      modifies this`users, this`grants
      ensures (View(), ok) == Bootstrap(old(View()), user, allowed)
    {
      if |set g | g in grants && g.1 == SUPER_ADMIN| > 0 || !allowed || user in users {
        return false;
      }
      users := users[user := false];
      ok := AssignRoleToUser(user, SUPER_ADMIN);
    }

    /** Adds the catalog to the roles' permissions one by one for a Super Admin. */
    method GetPermissionsForUser(user: nat) returns (permissions: set<string>)
      ensures permissions == Permissions(View(), user)
    {
      permissions := set g, p | g in grants && g.0 == user && g.1 in roles && p in roles[g.1].permissions :: p;
      if (user, SUPER_ADMIN) in grants && SUPER_ADMIN in roles {
        ghost var own := permissions;
        var left := catalog;
        while left != {}
          invariant left <= catalog && permissions == own + (catalog - left)
          decreases |left|
        {
          var p :| p in left;
          permissions, left := permissions + {p}, left - {p};
        }
      }
    }
  }

  lemma {:induction false} RemovalStops(s: Store, user: nat, current: seq<string>, wanted: seq<string>, n: nat)
    requires n <= |current| && !RemoveUnwanted(s, user, current[..n], wanted).1
    ensures RemoveUnwanted(s, user, current, wanted) == RemoveUnwanted(s, user, current[..n], wanted)
    decreases |current|
  {
    hide RemoveRole;
    if n == |current| {
      assert current[..n] == current;
    } else {
      assert current[..|current| - 1][..n] == current[..n];
      RemovalStops(s, user, current[..|current| - 1], wanted, n);
    }
  }

  lemma {:induction false} AdditionStops(s: Store, user: nat, current: seq<string>, wanted: seq<string>, n: nat)
    requires n <= |wanted| && !AddMissing(s, user, current, wanted[..n]).1
    ensures AddMissing(s, user, current, wanted) == AddMissing(s, user, current, wanted[..n])
    decreases |wanted|
  {
    hide AssignRole;
    if n == |wanted| {
      assert wanted[..n] == wanted;
    } else {
      assert wanted[..|wanted| - 1][..n] == wanted[..n];
      AdditionStops(s, user, current, wanted[..|wanted| - 1], n);
    }
  }
}
