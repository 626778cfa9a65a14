/** What each role operation does, in terms of who holds which role and which permissions a role has. */
module RoleLaws {
  import opened Common
  import opened Roles

  // ---- Roles and their permissions ------------------------------------------------------------

  /** Only the named role changes, and only its permissions do. */
  ghost predicate OnlyPermissionsOf(before: Store, after: Store, name: string) {
    && after.grants == before.grants && after.users == before.users && after.catalog == before.catalog
    && after.roles.Keys == before.roles.Keys
    && (forall r | r in before.roles && r != name :: after.roles[r] == before.roles[r])
    && (name in before.roles ==> after.roles[name].system == before.roles[name].system)
  }

  /**
   * An edit replaces the permissions of the role by those requested ones that the catalog has. It is refused, and then
   * changes nothing, exactly for an unknown or system role and for a request that holds "*".
   */
  lemma EditReplacesPermissions(s: Store, name: string, requested: Option<set<string>>)
    ensures var (after, ok) := UpdateRole(s, name, requested);
            && (ok <==> name in s.roles && !s.roles[name].system && (requested.Some? ==> "*" !in requested.value))
            && OnlyPermissionsOf(s, after, name)
            && (!ok || requested.None? ==> after == s)
            && (ok && requested.Some? ==>
                  forall p :: p in after.roles[name].permissions <==> p in requested.value && p in s.catalog)
  {
  }

  /**
   * A new role needs a name that is not taken. It is stored as an ordinary role with those requested permissions that
   * the catalog has; a request that holds "*" throws after the role was stored without any.
   */
  lemma CreationStoresRole(s: Store, name: string, requested: set<string>)
    ensures var (after, ok) := CreateRole(s, name, requested);
            && (name == "" || name in s.roles ==> !ok && after == s)
            && (name != "" && name !in s.roles ==>
                  && (ok <==> "*" !in requested)
                  && after.roles.Keys == s.roles.Keys + {name} && !after.roles[name].system
                  && (forall r | r in s.roles :: after.roles[r] == s.roles[r])
                  && (forall p :: p in after.roles[name].permissions <==> ok && p in requested && p in s.catalog)
                  && after == s.(roles := after.roles))
  {
  }

  /** A role is dropped exactly if it is there, is no system role, and nobody, not even a deleted user, holds it. */
  lemma DropIff(s: Store, name: string)
    ensures var (after, ok) := DeleteRole(s, name);
            && (ok <==> name in s.roles && !s.roles[name].system && forall u :: (u, name) !in s.grants)
            && after == (if ok then s.(roles := s.roles - {name}) else s)
  {
    if g :| g in s.grants && g.1 == name {
      assert (g.0, name) in s.grants;
    }
  }

  // ---- System roles over runs ----------------------------------------------------------------------

  lemma StepKeepsSystemRole(s: Store, e: Event, name: string)
    requires name in s.roles && s.roles[name].system
    ensures var after := Step(s, e).0; name in after.roles && after.roles[name] == s.roles[name]
  {
    hide AssignRole, RemoveRole, RemoveUnwanted, AddMissing, CountSuperAdmins;
    match e
    case Assign(user, role) => AssignTouchesGrants(s, user, role);
    case Remove(user, role) => RemoveTouchesGrants(s, user, role);
    case SetRoles(user, current, wanted) =>
      RemovedAre(s, user, current, wanted);
      AddedAre(RemoveUnwanted(s, user, current, wanted).0, user, current, wanted);
    case FirstRun(user, _) => AssignTouchesGrants(s.(users := s.users[user := false]), user, SUPER_ADMIN);
    case NewUser(user, roles) => AddedAre(s.(users := s.users[user := false]), user, [], roles);
    case _ =>
  }

  lemma AssignTouchesGrants(s: Store, user: nat, role: string)
    ensures AssignRole(s, user, role).0 == s.(grants := AssignRole(s, user, role).0.grants)
  {
  }

  lemma RemoveTouchesGrants(s: Store, user: nat, role: string)
    ensures RemoveRole(s, user, role).0 == s.(grants := RemoveRole(s, user, role).0.grants)
  {
  }

  /** Over every run a system role stays, with the permissions it has. */
  lemma {:induction false} SystemRolesStay(s: Store, events: seq<Event>, name: string)
    requires name in s.roles && s.roles[name].system
    ensures var after := Run(s, events); name in after.roles && after.roles[name] == s.roles[name]
  {
    hide Step;
    if events != [] {
      SystemRolesStay(s, events[..|events| - 1], name);
      StepKeepsSystemRole(Run(s, events[..|events| - 1]), events[|events| - 1], name);
    }
  }

  // ---- Users ------------------------------------------------------------------------------------------

  /** A user is created with exactly the given roles, or, when one of them does not exist, not at all. */
  lemma NewUserHasRoles(s: Store, user: nat, wanted: seq<string>)
    requires user !in s.users && forall g :: g in s.grants ==> g.0 != user
    ensures var (after, ok) := CreateUser(s, user, wanted);
            && (ok <==> forall role :: role in wanted ==> role in s.roles)
            && (!ok ==> after == s)
            && (ok ==>
                  && after.users == s.users[user := false] && after.roles == s.roles && after.catalog == s.catalog
                  && (forall role :: (user, role) in after.grants <==> role in wanted)
                  && (forall g: (nat, string) :: g.0 != user ==> (g in after.grants <==> g in s.grants)))
  {
    AddedAre(s.(users := s.users[user := false]), user, [], wanted);
    hide AddMissing;
  }

  /** The first run goes through exactly when nobody holds the role, and leaves one live Super Admin, the new user. */
  lemma FirstRunIff(s: Store, user: nat, allowed: bool)
    requires SUPER_ADMIN in s.roles
    ensures var (after, ok) := Bootstrap(s, user, allowed);
            && (ok <==> !HasHolder(s) && allowed && user !in s.users)
            && (!ok ==> after == s)
            && (ok ==>
                  && after == Store(s.roles, s.grants + {(user, "SUPER_ADMIN")}, s.users[user := false], s.catalog)
                  && forall u :: LiveHolder(after, u) <==> u == user)
  {
    HolderIffCounted(s);
    hide CountSuperAdmins;
  }

  // ---- Permissions of users -------------------------------------------------------------------------------

  /** Without a role a user has no permission. */
  lemma NoRoleNoPermission(s: Store, user: nat)
    requires forall g :: g in s.grants ==> g.0 != user
    ensures Permissions(s, user) == {} && forall p :: !IsAllowed(s, user, p)
  {
    assert forall p :: p !in Permissions(s, user);
  }

  /**
   * A grant gives the user the permissions of the role, with SUPER_ADMIN the catalog and every check besides, and
   * nobody else anything.
   */
  lemma GrantAddsPermissions(s: Store, user: nat, role: string, other: nat, p: string)
    requires AssignRole(s, user, role).1
    ensures var after := AssignRole(s, user, role).0;
            && role in s.roles && user in s.users
            && (p in Permissions(after, user) <==>
                  || p in Permissions(s, user) || p in s.roles[role].permissions
                  || (role == "SUPER_ADMIN" && p in s.catalog))
            && (IsAllowed(after, user, p) <==>
                  IsAllowed(s, user, p) || p in s.roles[role].permissions || role == "SUPER_ADMIN")
            && (other != user ==>
                  && Permissions(after, other) == Permissions(s, other)
                  && (IsAllowed(after, other, p) <==> IsAllowed(s, other, p)))
  {
    var after := AssignRole(s, user, role).0;
    if p in s.roles[role].permissions {
      assert (user, role) in after.grants;
    }
    PermissionsGrow(s, after, user);
    if other != user {
      PermissionsGrow(s, after, other);
      PermissionsGrow(after, s, other);
    }
  }

  lemma PermissionsGrow(a: Store, b: Store, user: nat)
    requires a.roles == b.roles && a.catalog == b.catalog
    requires forall g :: g in a.grants && g.0 == user ==> g in b.grants
    ensures Permissions(a, user) <= Permissions(b, user)
  {
  }
}
