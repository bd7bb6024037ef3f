/**
 * The role-and-permission guard (`AuthGuard` in roles.guard.ts): route metadata names required
 * roles and permissions; the authenticated principal needs one of the roles and all of the
 * permissions.
 */
module RolesGuard {
  import opened Wrappers
  import opened Exceptions
  import opened PrismaModels
  import opened Http

  /**
   * What the guard reads from `request.user`: its `roles` and `permissions` arrays, each
   * undefined when the object has no such property.
   */
  datatype Principal = Principal(roles: Option<seq<string>>, permissions: Option<seq<string>>)

  /**
   * A stored user as the guard sees it: the record has one `role` and neither a `roles` nor a
   * `permissions` property.
   */
  function PrincipalOf(user: User): (p: Principal)
    ensures p.roles.None? && p.permissions.None?
  {
    Principal(None, None)
  }

  /** `reflector.getAllAndOverride(key, [handler, class])`: the handler's entry unless it is absent. */
  function GetAllAndOverride(handler: Option<seq<string>>, controller: Option<seq<string>>): (r: Option<seq<string>>)
    ensures handler.Some? ==> r == handler
    ensures handler.None? ==> r == controller
  {
    if handler.Some? then handler else controller
  }

  /** `required.some(x => held?.includes(x))`. */
  function AnyIncluded(required: seq<string>, held: Option<seq<string>>): (r: bool)
    ensures r <==> held.Some? && exists i :: 0 <= i < |required| && required[i] in held.value
  {
    if required == [] then false
    else (held.Some? && required[0] in held.value) || AnyIncluded(required[1..], held)
  }

  /** `required.every(x => held?.includes(x))`. */
  function AllIncluded(required: seq<string>, held: Option<seq<string>>): (r: bool)
    ensures r <==> required == [] || (held.Some? && forall i :: 0 <= i < |required| ==> required[i] in held.value)
  {
    if required == [] then true
    else held.Some? && required[0] in held.value && AllIncluded(required[1..], held)
  }

  /**
   * `canActivate`.  A route without role or permission metadata is open.  Otherwise the user is
   * only read inside the `some`/`every` callbacks, so with no user attached the guard throws
   * exactly when one of the required lists is non-empty; with empty lists it answers without
   * reading the user.  With a user it needs one required role (any list given, even an empty
   * one, must be met) and every required permission.
   */
  function CanActivate(handler: RouteMetadata, controller: RouteMetadata, user: Option<Principal>)
    : (r: Result<bool, Exception>)
    ensures var roles := GetAllAndOverride(handler.roles, controller.roles);
            var permissions := GetAllAndOverride(handler.permissions, controller.permissions);
            && (roles.None? && permissions.None? ==> r == Ok(true))
            && (!(roles.None? && permissions.None?) && user.None? ==>
                  (r.Err? <==> (roles.Some? && roles.value != []) || (permissions.Some? && permissions.value != [])) &&
                  (r.Err? ==> r.error == TypeError) &&
                  (r.Ok? ==> r.value == roles.None?))
            && (!(roles.None? && permissions.None?) && user.Some? ==>
                  r.Ok? &&
                  (r.value <==>
                     && (roles.Some? ==> user.value.roles.Some? && exists i :: 0 <= i < |roles.value| && roles.value[i] in user.value.roles.value)
                     && (permissions.Some? ==>
                           (permissions.value == [] || (user.value.permissions.Some? &&
                             forall i :: 0 <= i < |permissions.value| ==> permissions.value[i] in user.value.permissions.value)))))
  {
    var requiredRoles := GetAllAndOverride(handler.roles, controller.roles);
    var requiredPermissions := GetAllAndOverride(handler.permissions, controller.permissions);
    if requiredRoles.None? && requiredPermissions.None? then Ok(true)
    else if user.None? then
      if (requiredRoles.Some? && requiredRoles.value != []) || (requiredPermissions.Some? && requiredPermissions.value != [])
      then Err(TypeError)
      else Ok(requiredRoles.None?)
    else
      var hasRole := if requiredRoles.Some? then AnyIncluded(requiredRoles.value, user.value.roles) else true;
      var hasPermission := if requiredPermissions.Some? then AllIncluded(requiredPermissions.value, user.value.permissions) else true;
      Ok(hasRole && hasPermission)
  }

  /**
   * Without an authenticated user, a route asking only for an empty permission list is open:
   * `[].every` never reads the missing user.
   */
  lemma AnonymousEmptyPermissionsAllowed(handler: RouteMetadata, controller: RouteMetadata)
    requires handler.permissions == Some([]) && handler.roles.None? && controller.roles.None?
    ensures CanActivate(handler, controller, None) == Ok(true)
  {
  }

  /**
   * Without an authenticated user, a route asking for an empty role list (and no non-empty
   * permission list) is closed rather than failing: `[].some` is false without reading the user.
   */
  lemma AnonymousEmptyRolesDenied(handler: RouteMetadata, controller: RouteMetadata)
    requires handler.roles == Some([])
    requires var permissions := GetAllAndOverride(handler.permissions, controller.permissions);
             permissions.None? || permissions.value == []
    ensures CanActivate(handler, controller, None) == Ok(false)
  {
  }

  /** `@Roles()` with no arguments locks the route for everybody. */
  lemma EmptyRoleListDeniesAll(handler: RouteMetadata, controller: RouteMetadata, principal: Principal)
    requires handler.roles == Some([])
    ensures CanActivate(handler, controller, Some(principal)) == Ok(false)
  {
  }

  /** `@Permissions()` with no arguments asks for nothing. */
  lemma EmptyPermissionListAllows(handler: RouteMetadata, controller: RouteMetadata, principal: Principal)
    requires handler.permissions == Some([]) && handler.roles.None? && controller.roles.None?
    ensures CanActivate(handler, controller, Some(principal)) == Ok(true)
  {
  }

  /** The handler's metadata replaces the controller's rather than adding to it. */
  lemma HandlerOverridesController(handler: RouteMetadata, c1: RouteMetadata, c2: RouteMetadata, user: Option<Principal>)
    requires handler.roles.Some? && handler.permissions.Some?
    ensures CanActivate(handler, c1, user) == CanActivate(handler, c2, user)
  {
  }

  /**
   * A stored user, as the JWT guard attaches it, passes no route that names roles or
   * permissions (one asking for an empty permission list only excepted).
   */
  lemma StoredUserDenied(handler: RouteMetadata, controller: RouteMetadata, user: User)
    requires GetAllAndOverride(handler.roles, controller.roles).Some? ||
             (GetAllAndOverride(handler.permissions, controller.permissions).Some? &&
              GetAllAndOverride(handler.permissions, controller.permissions).value != [])
    ensures CanActivate(handler, controller, Some(PrincipalOf(user))) == Ok(false)
  {
  }

  /** Granting a principal more roles and permissions never takes access away. */
  lemma MorePrivilegesKeepAccess(handler: RouteMetadata, controller: RouteMetadata, p: Principal, q: Principal)
    requires p.roles.Some? ==> q.roles.Some? && forall x :: x in p.roles.value ==> x in q.roles.value
    requires p.permissions.Some? ==> q.permissions.Some? && forall x :: x in p.permissions.value ==> x in q.permissions.value
    requires CanActivate(handler, controller, Some(p)) == Ok(true)
    ensures CanActivate(handler, controller, Some(q)) == Ok(true)
  {
  }
}
