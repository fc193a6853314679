# RBAC console: storage-backed repositories and permission checks

This project models the core of a browser-based role-based access control
console. Two services keep their records in browser storage, and one page
decides what the logged-in user may do.

- `UserService` keeps a list of `User` records under the key `rbac_users`.
  It offers seeding, listing, lookup by id and by username, add, update,
  delete, clear and credential authentication.
- `RoleService` keeps a list of `Role` records under `rbac_roles`.
  It answers `hasPermission(roleName, permission)`.
- The roles page toggles permission checkboxes in its form. It gates
  create, update and delete on the current user's role.

Every mutating call rewrites the whole stored list. The model follows this.
Each service is a class whose field `stored: Option<seq<...>>` is the
storage key: `None` means the key is absent. The server-or-browser check
(`isPlatformBrowser`) is a constant field `isBrowser`. The wall clock
(`Date.now()`) is a method parameter `now`. This makes colliding ids a
case the lemmas can talk about.

The JavaScript array operations the services use are modelled once, in
`ArrayOps`, with their own contracts: `findIndex`, `find`, `filter`, and
"find the index, then overwrite that slot". Over these the model proves:

- `filter` keeps the accepted elements in order.
- `filter` shrinks the list exactly when something is rejected.
- `find` after an append is shadowed by an earlier match.

The query members of the services (`GetUsers`, `GetUserById`,
`Authenticate`, `GetRoleByName`, `HasPermission`, …) are functions that
read the service. Their contracts say which record is returned: the
first match. The mutators are methods. Their contracts give the new
stored list in terms of the old one, and what is returned.

Two behaviours of the code are stated as lemmas and proved clients:

- Ids are timestamps, so two adds in the same millisecond share an id.
  `updateUser` then changes only the first record with that id, while
  `deleteUser` removes both (`UserStore.UpdateTouchesFirstDuplicateOnly`).
  Looking the id up still yields the earlier record
  (`UserStore.AddWithTakenIdIsShadowed`).
- A user's `role` is never checked against the role names, and role
  names are not required to be unique. Deleting a role leaves users
  untouched. Their role then grants nothing only when no other role has
  that name; otherwise the next role of that name answers
  `hasPermission`. `RoleStore.DeletedRoleNameIsGone` states this for the
  list, and `Walkthrough.DeleteOnlyRoleRevokes` for the service.
  `Walkthrough.DeletedRoleOrphansUsers` shows it on the seeded lists.

The module `Walkthrough` holds clients proved from the contracts alone.
They cover a freshly seeded session:

- the admin logs in and the Admin role grants `delete` but not
  `manage_users`;
- an unknown role grants nothing, and a role added later grants exactly
  what it lists;
- the page gates are closed when nobody is logged in;
- a deleted user can no longer log in;
- seeding twice equals seeding once.

`Walkthrough.DeleteOnlyRoleRevokes` is a client over any stored role list,
not only the seeded one.

Files: `wrappers.dfy` (Option, Result), `array_ops.dfy`,
`user_service.dfy`, `role_service.dfy`, `roles_page.dfy`,
`walkthrough.dfy`.

## Model

| member | source | states |
|---|---|---|
| `ArrayOps.FindIndex` | src/app/services/user.service.ts:101 | the result is -1 exactly when no element matches; otherwise it is a matching index with no match before it |
| `ArrayOps.Find` | src/app/services/user.service.ts:79 | None exactly when no element matches; otherwise the element at the first matching position |
| `ArrayOps.Filter` | src/app/services/user.service.ts:115 | every element occurs as often as in the input if accepted and not at all if rejected; never longer than the input |
| `ArrayOps.UpdateFirst` | src/app/services/user.service.ts:101-104 | same length; the first matching slot becomes `f` of itself, and every other slot is unchanged |
| `ArrayOps.FilterMembers` | src/app/services/user.service.ts:115 | an element is in the filtered list exactly when it is in the input and accepted |
| `ArrayOps.FilterConcat` | src/app/services/user.service.ts:115 | filtering a concatenation is the concatenation of the filtered parts, so the kept records stay in their original order |
| `ArrayOps.FilterAllAccepted` | src/app/services/user.service.ts:115-121 | when nothing is rejected, `filter` returns the list itself |
| `ArrayOps.FilterShrinks` | src/app/services/user.service.ts:115-117 | the filtered list is shorter exactly when some element is rejected, which is the condition `deleteUser` tests |
| `ArrayOps.FilterDropsBoth` | src/app/services/user.service.ts:115 | two rejected elements shorten the list by at least two |
| `ArrayOps.FilterIdempotent` | src/app/pages/roles/roles.ts:171 | filtering twice with the same predicate equals filtering once |
| `ArrayOps.FindAfterAppend` | src/app/services/user.service.ts:77-95 | after an append, an earlier match still wins; with no earlier match the appended element is found exactly when it matches |
| `UserStore.NewUser.WithId` | src/app/services/user.service.ts:88-91 | the new record carries the supplied id and every supplied field unchanged |
| `UserStore.Merge` | src/app/services/user.service.ts:104 | each field the patch supplies overrides, each one it omits is kept; an empty patch changes nothing |
| `UserStore.MergeIdempotent` | src/app/services/user.service.ts:104 | merging the same patch twice equals merging it once |
| `UserStore.UpdateTouchesFirstDuplicateOnly` | src/app/services/user.service.ts:97-122 | with two records of one id, update leaves the later one as it was, while delete removes both and no record with the id remains |
| `UserStore.UpdateTwiceSameAsOnce` | src/app/services/user.service.ts:97-109 | submitting the same update twice, with a patch that keeps the id, stores the same list as submitting it once |
| `UserStore.AddWithTakenIdIsShadowed` | src/app/services/user.service.ts:77-95 | adding a record whose id is already taken does not change what lookup by that id returns |
| `UserStore.AddWithFreshIdIsFound` | src/app/services/user.service.ts:77-95 | adding a record with a fresh id makes lookup by that id return exactly the new record |
| `UserStore.DeletedUserCannotAuthenticate` | src/app/services/user.service.ts:111-135 | once the id every matching record carried is deleted, the credentials match no record |
| `UserStore.UserService.constructor` | src/app/services/user.service.ts:23-27 | in a browser an absent key is seeded with the two default users; otherwise storage is as found |
| `UserStore.UserService.InitializeDefaultUsers` | src/app/services/user.service.ts:29-60 | writes the defaults (ids 1 and 2) only when in a browser with the key absent; a stored list, even an empty one, is left alone |
| `UserStore.UserService.GetUsers` | src/app/services/user.service.ts:62-75 | the empty list off-browser or with the key absent; otherwise the stored records in stored order |
| `UserStore.UserService.GetUserById` | src/app/services/user.service.ts:77-80 | undefined exactly when no record has the id; otherwise a record with the id and no record with that id before it |
| `UserStore.UserService.AddUser` | src/app/services/user.service.ts:82-95 | in a browser, appends exactly the record built from the fields and the id, and returns it; off-browser, throws and writes nothing |
| `UserStore.UserService.UpdateUser` | src/app/services/user.service.ts:97-109 | a record is returned exactly when in a browser with the id present; it is the first such record merged with the patch, and only that slot changes; otherwise null and storage unchanged |
| `UserStore.UserService.DeleteUser` | src/app/services/user.service.ts:111-122 | true exactly when in a browser with the id present, and then storage holds the records with other ids in order; otherwise false and storage unchanged |
| `UserStore.UserService.ClearAllUsers` | src/app/services/user.service.ts:124-127 | in a browser the key becomes absent; off-browser nothing changes |
| `UserStore.UserService.Authenticate` | src/app/services/user.service.ts:129-135 | null exactly when no stored user has both this username and this password (so always on an empty or absent list); otherwise the first user that has both |
| `UserStore.UserService.GetUserByUsername` | src/app/services/user.service.ts:137-140 | undefined exactly when no record has the username; otherwise the first record that has it |
| `RoleStore.NewRole.WithId` | src/app/services/role.service.ts:57-60 | the new role carries the supplied id, name, description and permissions |
| `RoleStore.Merge` | src/app/services/role.service.ts:73 | each field the patch supplies overrides, each one it omits is kept; an empty patch changes nothing |
| `RoleStore.DeletedRoleNameIsGone` | src/app/services/role.service.ts:80-102 | once the only id carried by roles of a name is deleted, no role of that name remains for the lookup |
| `Walkthrough.DeleteOnlyRoleRevokes` | src/app/services/role.service.ts:80-102 | on any stored role list, deleting the id that every role of a name carries makes `hasPermission` false for that name and every permission |
| `RoleStore.RoleService.constructor` | src/app/services/role.service.ts:18-22 | in a browser an absent key is seeded with the Admin role; otherwise storage is as found |
| `RoleStore.RoleService.InitializeDefaultRoles` | src/app/services/role.service.ts:24-39 | seeds exactly one role, Admin with create, read, update and delete, only when the key is absent; afterwards Admin holds "delete" and lacks "manage_users" |
| `RoleStore.RoleService.GetRoles` | src/app/services/role.service.ts:41-49 | the empty list off-browser or with the key absent; otherwise the stored roles |
| `RoleStore.RoleService.AddRole` | src/app/services/role.service.ts:51-64 | in a browser, appends exactly one role with the supplied id after the earlier ones, and returns it; off-browser, throws and writes nothing |
| `RoleStore.RoleService.UpdateRole` | src/app/services/role.service.ts:66-78 | a role is returned exactly when in a browser with the id present; it is the first such role merged with the patch, and only that slot changes; otherwise null and storage unchanged |
| `RoleStore.RoleService.DeleteRole` | src/app/services/role.service.ts:80-91 | true exactly when in a browser with the id present, and then storage holds the roles with other ids in order; otherwise false and storage unchanged |
| `RoleStore.RoleService.GetRoleByName` | src/app/services/role.service.ts:94-97 | undefined exactly when no role has the name; otherwise the first role that has it |
| `RoleStore.RoleService.HasPermission` | src/app/services/role.service.ts:99-102 | true exactly when some role has the name and the first such role lists the permission; so false for an unknown name and any permission |
| `RolesPage.Toggled` | src/app/pages/roles/roles.ts:166-176 | the toggled permission is present afterwards exactly when it was absent before; an absent one is appended at the end; every other permission's presence is unchanged |
| `RolesPage.TogglePreservesOthers` | src/app/pages/roles/roles.ts:171-174 | with the toggled permission filtered out, the lists before and after are equal, so the others keep their relative order |
| `RolesPage.ToggleTwiceRestores` | src/app/pages/roles/roles.ts:166-176 | toggling an absent permission twice gives back the original list |
| `RolesPage.Roles.constructor` | src/app/pages/roles/roles.ts:42-48 | the page starts with the given service and current user and an empty permissions list |
| `RolesPage.Roles.FormPermissions` | src/app/pages/roles/roles.ts:167 | the control's value, or the empty list when the value is null |
| `RolesPage.Roles.ResetForm` | src/app/pages/roles/roles.ts:162-164 | the permissions control becomes null, which reads as the empty list |
| `RolesPage.Roles.TogglePermission` | src/app/pages/roles/roles.ts:166-176 | the control holds the toggled list; the form's `hasPermission` flips for that permission and is unchanged for every other |
| `RolesPage.Roles.HasPermission` | src/app/pages/roles/roles.ts:178-181 | true exactly when the control's list holds the permission; false when the value is null |
| `RolesPage.Roles.CanCreateRole` | src/app/pages/roles/roles.ts:76-78 | false when nobody is logged in; otherwise exactly the service's answer for the user's role and "create" |
| `RolesPage.Roles.CanUpdateRole` | src/app/pages/roles/roles.ts:80-82 | false when nobody is logged in; otherwise exactly the service's answer for the user's role and "update" |
| `RolesPage.Roles.CanDeleteRole` | src/app/pages/roles/roles.ts:84-86 | false when nobody is logged in; otherwise exactly the service's answer for the user's role and "delete" |

## Left out

- JSON serialisation is left out. The stored list is a typed sequence, and reading it back is taken to give the records that were written.
- Re-parsing `dateOfBirth` into a `Date` is left out. A date is an opaque count of milliseconds. The defaults carry 1990-01-01 and 1985-05-15 as UTC midnights.
- A corrupt stored string is not modelled. Such a string would make `JSON.parse` throw. The code has no guard for this, so a parse failure does not yield an empty list.
- An empty stored string is not modelled. The code would treat it as an absent key, but the services only ever store JSON text.
- `Date.now()` is the parameter `now`, and `isPlatformBrowser` is the constant `isBrowser`. The clock and the platform are outside the model.
- A patch field explicitly set to `undefined` is not modelled. In the code it would override the field with `undefined`; in the model a patch field is either supplied or absent.
- Extra run-time properties on the objects passed to `addUser` and `addRole` are not modelled.
- Races between browser tabs sharing storage are left out. The model is single-threaded.
- The session marker is given to the page's constructor, not read from storage. `loadCurrentUser` and `ngOnInit` are not part of this model. A marker without a `role` field is not modelled.
- The page's name and description controls, its validators, `onSave`, `onUpdate`, `editRole`, `deleteRole`, `onCancel`, `isAdmin` and navigation are UI wiring. They are not part of this model.
- The users, login and dashboard pages, the route guard, the routes and the snackbar error handler are not part of this model. Their permission checks delegate to `RoleService.hasPermission` as the roles page does.
