/**
 * Clients of the two services and the roles page, proved from their
 * contracts alone: fresh browser sessions seeded with the defaults.
 */
module Walkthrough {
  import opened Wrappers
  import opened ArrayOps
  import opened UserStore
  import opened RoleStore
  import opened RolesPage

  /** The seeded admin logs in with the seeded credentials. */
  method SeededAdminLogsIn()
  {
    var users := new UserService(true, None);
    var admin := users.Authenticate("admin", "admin123");
    assert users.GetUsers()[0].username == "admin";
    assert admin == Some(DefaultUsers[0]);
  }

  /** The seeded Admin role grants "delete" but not "manage_users"; an unknown role grants nothing. */
  method SeededAdminRole()
  {
    var roles := new RoleService(true, None);
    assert roles.GetRoles()[0].name == "Admin";
    assert roles.HasPermission("Admin", "delete");
    assert !roles.HasPermission("Admin", "manage_users");
    assert !roles.HasPermission("Guest", "read");
  }

  /** A role added later grants exactly what it lists. */
  method AddedRoleGrantsWhatItLists()
  {
    var roles := new RoleService(true, None);
    var viewer := roles.AddRole(NewRole("Viewer", "Read-only access", ["read"]), 1700000000000);
    assert roles.GetRoles()[1].name == "Viewer" && roles.GetRoles()[0].name != "Viewer";
    assert roles.HasPermission("Viewer", "read");
    assert !roles.HasPermission("Viewer", "create");
  }

  /** The page gates on the logged-in user's role; with nobody logged in every gate is closed. */
  method PageGates()
  {
    var roles := new RoleService(true, None);
    assert roles.GetRoles()[0].name == "Admin";
    var page := new Roles(roles, Some(CurrentUser(1, "admin", "Admin")));
    assert page.CanCreateRole() && page.CanUpdateRole() && page.CanDeleteRole();
    var anonymous := new Roles(roles, None);
    assert !anonymous.CanCreateRole() && !anonymous.CanUpdateRole() && !anonymous.CanDeleteRole();
  }

  /**
   * Deleting the Admin role leaves the users' role strings as they were,
   * but the admin's role then grants nothing.
   */
  method DeletedRoleOrphansUsers()
  {
    var users := new UserService(true, None);
    var roles := new RoleService(true, None);
    var page := new Roles(roles, Some(CurrentUser(1, "admin", "Admin")));
    var before := users.GetUsers();
    assert roles.GetRoles()[0].id == 1;
    var roleGone := roles.DeleteRole(1);
    assert roleGone;
    assert users.GetUsers() == before && before[0].role == "Admin";
    DeletedRoleNameIsGone([AdminRole], 1, "Admin");
    assert !page.CanCreateRole() && !page.CanDeleteRole();
  }

  /** Deleting the admin user ends its ability to log in. */
  method DeletedUserCannotLogIn()
  {
    var users := new UserService(true, None);
    assert users.GetUsers()[0].id == 1;
    var userGone := users.DeleteUser(1);
    assert userGone;
    DeletedUserCannotAuthenticate(DefaultUsers, 1, "admin", "admin123");
    var admin := users.Authenticate("admin", "admin123");
    assert admin == None;
  }

  /** Seeding a second time changes nothing, whatever the key held before. */
  method SeedingIsIdempotent(existingUsers: Option<seq<User>>, existingRoles: Option<seq<Role>>)
  {
    var users := new UserService(true, existingUsers);
    var usersOnce := users.stored;
    users.InitializeDefaultUsers();
    assert users.stored == usersOnce;

    var roles := new RoleService(true, existingRoles);
    var rolesOnce := roles.stored;
    roles.InitializeDefaultRoles();
    assert roles.stored == rolesOnce;
  }

  /**
   * On any role list: deleting the id that every role of a name carries
   * leaves that name granting no permission at all.
   */
  method DeleteOnlyRoleRevokes(rs: RoleService, id: int, name: string)
    requires forall i :: 0 <= i < |rs.GetRoles()| && rs.GetRoles()[i].name == name ==> rs.GetRoles()[i].id == id
    modifies rs
    ensures forall p :: !rs.HasPermission(name, p)
  {
    DeletedRoleNameIsGone(rs.GetRoles(), id, name);
    var removed := rs.DeleteRole(id);
  }
}
