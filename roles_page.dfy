/**
 * The roles page: the permission checkboxes of the role form and the
 * create/update/delete gates, which ask the role service whether the
 * logged-in user's role holds the matching permission.
 */
module RolesPage {
  import opened Wrappers
  import opened ArrayOps
  import opened RoleStore

  /** The session marker stored under 'currentUser' at login. */
  datatype CurrentUser = CurrentUser(id: int, username: string, role: string)

  /** `p => p !== permission` */
  function Differs(permission: string): (p: string -> bool) {
    (q: string) => q != permission
  }

  /**
   * The list `togglePermission` writes back: every occurrence of a listed
   * permission is removed, an unlisted one is appended at the end.
   */
  function Toggled(permissions: seq<string>, permission: string): (r: seq<string>)
    ensures permission in r <==> permission !in permissions
    ensures permission !in permissions ==> r == permissions + [permission]
    ensures forall q :: q != permission ==> (q in r <==> q in permissions)
  {
    if permission in permissions then
      FilterMembers(permissions, Differs(permission));
      Filter(permissions, Differs(permission))
    else
      permissions + [permission]
  }

  /**
   * A toggle leaves every other permission in place and in the same
   * relative order: with the toggled one filtered out, before and after agree.
   */
  lemma TogglePreservesOthers(permissions: seq<string>, permission: string)
    ensures Filter(Toggled(permissions, permission), Differs(permission)) == Filter(permissions, Differs(permission))
  {
    if permission in permissions {
      FilterIdempotent(permissions, Differs(permission));
    } else {
      FilterConcat(permissions, [permission], Differs(permission));
      assert Filter([permission], Differs(permission)) == [] by {
        assert [permission][1..] == [];
      }
    }
  }

  /** Toggling an unlisted permission twice restores the original list. */
  lemma ToggleTwiceRestores(permissions: seq<string>, permission: string)
    requires permission !in permissions
    ensures Toggled(Toggled(permissions, permission), permission) == permissions
  {
    var once := permissions + [permission];
    FilterConcat(permissions, [permission], Differs(permission));
    assert Filter([permission], Differs(permission)) == [] by {
      assert [permission][1..] == [];
    }
    assert forall i :: 0 <= i < |permissions| ==> Differs(permission)(permissions[i]);
    FilterAllAccepted(permissions, Differs(permission));
  }

  /** The `Roles` component, reduced to the state its permission logic uses. */
  class Roles {
    const roleService: RoleService
    /** `currentUser`, parsed from 'currentUser'; None while nobody is logged in. */
    var currentUser: Option<CurrentUser>
    /** Value of the form's `permissions` control; None is `null`, as after `roleForm.reset()`. */
    var permissionsValue: Option<seq<string>>

    constructor (roleService: RoleService, currentUser: Option<CurrentUser>)
      ensures this.roleService == roleService && this.currentUser == currentUser
      ensures permissionsValue == Some([])
    {
      this.roleService := roleService;
      this.currentUser := currentUser;
      permissionsValue := Some([]);
    }

    /** `this.roleForm.get('permissions')?.value || []` */
    function FormPermissions(): (r: seq<string>)
      reads this
      ensures permissionsValue.None? ==> r == []
      ensures permissionsValue.Some? ==> r == permissionsValue.value
    {
      permissionsValue.GetOr([])
    }

    /** `resetForm`, as it affects the permissions control: its value becomes null. */
    method ResetForm()
      modifies this`permissionsValue
      ensures permissionsValue == None
      ensures FormPermissions() == []
    {
      permissionsValue := None;
    }

    /** `togglePermission`: patches the form with the toggled list, flipping `hasPermission`. */
    method TogglePermission(permission: string)
      modifies this`permissionsValue
      ensures permissionsValue == Some(Toggled(old(FormPermissions()), permission))
      ensures HasPermission(permission) == !old(HasPermission(permission))
      ensures forall q :: q != permission ==> HasPermission(q) == old(HasPermission(q))
    {
      var permissions := FormPermissions();
      if permission in permissions {
        var updatedPermissions := Filter(permissions, Differs(permission));
        permissionsValue := Some(updatedPermissions);
      } else {
        permissionsValue := Some(permissions + [permission]);
      }
    }

    /** `hasPermission` (the form's): whether the checkbox for `permission` is ticked. */
    function HasPermission(permission: string): (r: bool)
      reads this
      ensures permissionsValue.None? ==> !r
      ensures permissionsValue.Some? ==> (r <==> permission in permissionsValue.value)
    {
      permission in FormPermissions()
    }

    /**
     * `canCreateRole`: the service's check for the current user's role and
     * "create"; an absent user's role is `undefined`, which names no role.
     */
    function CanCreateRole(): (r: bool)
      reads this, roleService
      ensures currentUser.None? ==> !r
      ensures currentUser.Some? ==> (r <==> roleService.HasPermission(currentUser.value.role, "create"))
    {
      match currentUser
      case None => false
      case Some(user) => roleService.HasPermission(user.role, "create")
    }

    /** `canUpdateRole`: as `canCreateRole`, for "update". */
    function CanUpdateRole(): (r: bool)
      reads this, roleService
      ensures currentUser.None? ==> !r
      ensures currentUser.Some? ==> (r <==> roleService.HasPermission(currentUser.value.role, "update"))
    {
      match currentUser
      case None => false
      case Some(user) => roleService.HasPermission(user.role, "update")
    }

    /** `canDeleteRole`: as `canCreateRole`, for "delete". */
    function CanDeleteRole(): (r: bool)
      reads this, roleService
      ensures currentUser.None? ==> !r
      ensures currentUser.Some? ==> (r <==> roleService.HasPermission(currentUser.value.role, "delete"))
    {
      match currentUser
      case None => false
      case Some(user) => roleService.HasPermission(user.role, "delete")
    }
  }
}
