/**
 * The role repository: a list of `Role` records kept under the storage key
 * 'rbac_roles', with the permission check the pages gate their actions on.
 */
module RoleStore {
  import opened Wrappers
  import opened ArrayOps

  /** A role; `permissions` are flat tokens such as "create" or "manage_users". */
  datatype Role = Role(id: int, name: string, description: string, permissions: seq<string>)

  /** `Omit<Role, 'id'>`: the fields a caller supplies to `addRole`. */
  datatype NewRole = NewRole(name: string, description: string, permissions: seq<string>)
  {
    /** `{ ...role, id }` */
    function WithId(id: int): (r: Role)
      ensures r.id == id && r.name == name && r.description == description && r.permissions == permissions
    {
      Role(id, name, description, permissions)
    }
  }

  /** `Partial<Role>`: None marks a field the caller did not supply. */
  datatype RolePatch = RolePatch(
    id: Option<int>,
    name: Option<string>,
    description: Option<string>,
    permissions: Option<seq<string>>)

  /** `{ ...role, ...patch }`: supplied fields override, the others are kept. */
  function Merge(role: Role, patch: RolePatch): (r: Role)
    ensures patch == RolePatch(None, None, None, None) ==> r == role
    ensures patch.id.Some? ==> r.id == patch.id.value
    ensures patch.id.None? ==> r.id == role.id
    ensures patch.name.Some? ==> r.name == patch.name.value
    ensures patch.name.None? ==> r.name == role.name
    ensures patch.description.Some? ==> r.description == patch.description.value
    ensures patch.description.None? ==> r.description == role.description
    ensures patch.permissions.Some? ==> r.permissions == patch.permissions.value
    ensures patch.permissions.None? ==> r.permissions == role.permissions
  {
    Role(
      patch.id.GetOr(role.id),
      patch.name.GetOr(role.name),
      patch.description.GetOr(role.description),
      patch.permissions.GetOr(role.permissions))
  }

  /** `role => role.id === id` */
  function HasId(id: int): (p: Role -> bool) {
    (r: Role) => r.id == id
  }

  /** `role => role.id !== id` */
  function LacksId(id: int): (p: Role -> bool) {
    (r: Role) => r.id != id
  }

  /** `role => role.name === name` */
  function HasName(name: string): (p: Role -> bool) {
    (r: Role) => r.name == name
  }

  /** `role => ({ ...role, ...patch })` */
  function MergeWith(patch: RolePatch): (f: Role -> Role) {
    (r: Role) => Merge(r, patch)
  }

  /** The single role seeded into an absent key. */
  const AdminRole := Role(1, "Admin", "Full system access with all permissions",
                          ["create", "read", "update", "delete"])

  /**
   * Deleting the id that every role with this name carried leaves no role
   * of that name, so the name no longer grants anything.
   */
  lemma {:induction false} DeletedRoleNameIsGone(roles: seq<Role>, id: int, name: string)
    requires forall i :: 0 <= i < |roles| && roles[i].name == name ==> roles[i].id == id
    ensures Find(Filter(roles, LacksId(id)), HasName(name)) == None
  {
    var kept := Filter(roles, LacksId(id));
    FilterMembers(roles, LacksId(id));
    forall i | 0 <= i < |kept| ensures !HasName(name)(kept[i]) {
      assert multiset(kept)[kept[i]] > 0;
      assert kept[i] in roles;
    }
  }

  /** `RoleService`, with `localStorage['rbac_roles']` as its `stored` field. */
  class RoleService {
    /** `isPlatformBrowser(this.platformId)`, fixed for the service's lifetime. */
    const isBrowser: bool
    /** The list under 'rbac_roles'; None when the key is absent. */
    var stored: Option<seq<Role>>

    /** Injection: seeds the Admin role in a browser when the key is absent. */
    constructor (isBrowser: bool, existing: Option<seq<Role>>)
      ensures this.isBrowser == isBrowser
      ensures isBrowser && existing.None? ==> stored == Some([AdminRole])
      ensures !isBrowser || existing.Some? ==> stored == existing
    {
      this.isBrowser := isBrowser;
      stored := existing;
      new;
      if isBrowser {
        InitializeDefaultRoles();
      }
    }

    /**
     * `initializeDefaultRoles`: writes the Admin role only when the key is
     * absent, after which Admin holds "delete" but not "manage_users".
     */
    method InitializeDefaultRoles()
      modifies this
      ensures isBrowser && old(stored).None? ==> stored == Some([AdminRole])
      ensures !isBrowser || old(stored).Some? ==> stored == old(stored)
      ensures isBrowser && old(stored).None? ==>
        HasPermission("Admin", "delete") && !HasPermission("Admin", "manage_users")
    {
      if !isBrowser {
        return;
      }
      if stored.None? {
        stored := Some([AdminRole]);
        assert GetRoleByName("Admin") == Some(AdminRole) by {
          assert HasName("Admin")(GetRoles()[0]);
        }
      }
    }

    /** `getRoles`: the stored list, or the empty list off-browser or when the key is absent. */
    function GetRoles(): (r: seq<Role>)
      reads this
      ensures !isBrowser || stored.None? ==> r == []
      ensures isBrowser && stored.Some? ==> r == stored.value
    {
      if !isBrowser then []
      else match stored
        case None => []
        case Some(roles) => roles
    }

    /** `addRole`: appends the role with id `now` (for `Date.now()`), or throws off-browser. */
    method AddRole(role: NewRole, now: int) returns (r: Result<Role>)
      modifies this
      ensures isBrowser ==> r == Ok(role.WithId(now)) && stored == Some(old(GetRoles()) + [r.value])
      ensures !isBrowser ==> r == Err("Cannot add role on server side") && stored == old(stored)
    {
      if !isBrowser {
        return Err("Cannot add role on server side");
      }
      var roles := GetRoles();
      var newRole := role.WithId(now);
      roles := roles + [newRole];
      stored := Some(roles);
      r := Ok(newRole);
    }

    /**
     * `updateRole`: merges the patch into the first role with the id and
     * returns it; null, with storage untouched, when there is none.
     */
    method UpdateRole(id: int, roleData: RolePatch) returns (r: Option<Role>)
      modifies this
      ensures r.Some? <==> isBrowser && exists i :: 0 <= i < |old(GetRoles())| && old(GetRoles())[i].id == id
      ensures r.None? ==> stored == old(stored)
      ensures r.Some? ==> stored == Some(UpdateFirst(old(GetRoles()), HasId(id), MergeWith(roleData)))
      ensures r.Some? ==> exists i :: 0 <= i < |old(GetRoles())| && old(GetRoles())[i].id == id &&
                                      (forall j :: 0 <= j < i ==> old(GetRoles())[j].id != id) &&
                                      r.value == Merge(old(GetRoles())[i], roleData)
    {
      if !isBrowser {
        return None;
      }
      var roles := GetRoles();
      var index := FindIndex(roles, HasId(id));
      if index != -1 {
        roles := roles[index := Merge(roles[index], roleData)];
        stored := Some(roles);
        return Some(roles[index]);
      }
      return None;
    }

    /**
     * `deleteRole`: keeps exactly the roles whose id differs; writes and
     * returns true only when that removed something.
     */
    method DeleteRole(id: int) returns (removed: bool)
      modifies this
      ensures removed <==> isBrowser && exists i :: 0 <= i < |old(GetRoles())| && old(GetRoles())[i].id == id
      ensures removed ==> stored == Some(Filter(old(GetRoles()), LacksId(id)))
      ensures !removed ==> stored == old(stored)
    {
      if !isBrowser {
        return false;
      }
      var roles := GetRoles();
      var filteredRoles := Filter(roles, LacksId(id));
      FilterShrinks(roles, LacksId(id));
      if |filteredRoles| < |roles| {
        stored := Some(filteredRoles);
        return true;
      }
      return false;
    }

    /** `getRoleByName`: the first role with the name, or undefined. */
    function GetRoleByName(name: string): (r: Option<Role>)
      reads this
      ensures r.None? <==> forall i :: 0 <= i < |GetRoles()| ==> GetRoles()[i].name != name
      ensures r.Some? ==> r.value.name == name
      ensures r.Some? ==> exists i :: 0 <= i < |GetRoles()| && GetRoles()[i] == r.value &&
                                      forall j :: 0 <= j < i ==> GetRoles()[j].name != name
    {
      Find(GetRoles(), HasName(name))
    }

    /**
     * `hasPermission`: true exactly when some role has the name and the
     * first such role lists the permission; false for an unknown name.
     */
    function HasPermission(roleName: string, permission: string): (r: bool)
      reads this
      ensures r <==> exists i :: 0 <= i < |GetRoles()| && GetRoles()[i].name == roleName &&
                                 (forall j :: 0 <= j < i ==> GetRoles()[j].name != roleName) &&
                                 permission in GetRoles()[i].permissions
    {
      match GetRoleByName(roleName)
      case None => false
      case Some(role) => permission in role.permissions
    }
  }
}
