/**
 * The role-based access configuration: permission items named after the
 * controller actions they guard, composite permissions, and the roles that
 * bundle them. An item may carry a rule, a run-time condition (the target is
 * not an administrator, the record belongs to the user) on which the links
 * through that item depend.
 */
module Permissions {
  import opened Common

  /** The configured items. */
  datatype Key =
    | UserGetOne | UserGetAllPaginated | UserPatchOne | UserDeleteOne
    | PermissionsGetAll | PermissionsPutManyReplace
    | ReAssignAllRoles | ReAssignNonAdmin
    | ImpersonateUser | ImpersonateAllUsers | ImpersonateNonAdmin
    | ManipulateWithOwn
    | SuperAdminRole | AdminRole | UserRole | TestRole

  datatype ItemType = Permission | Role

  /** The rule classes items name. */
  datatype Rule = ReAssignNonAdminRule | ImpersonateNonAdminRule | ManipulateWithOwnRule

  datatype Item = Item(itemType: ItemType, description: Option<string>, ruleName: Option<Rule>, children: seq<Key>)

  /** Height of an item in the hierarchy: every child sits lower. */
  function Rank(k: Key): nat {
    match k
    case SuperAdminRole => 4
    case AdminRole => 3
    case UserRole => 2
    case ReAssignAllRoles => 1
    case ReAssignNonAdmin => 1
    case ImpersonateAllUsers => 1
    case ImpersonateNonAdmin => 1
    case ManipulateWithOwn => 1
    case _ => 0
  }

  /** The `children` of each item. The hierarchy is acyclic: every child
      ranks below its parent. */
  function Children(k: Key): seq<Key> {
    match k
    case ReAssignAllRoles => [PermissionsPutManyReplace]
    case ReAssignNonAdmin => [PermissionsPutManyReplace]
    case ImpersonateAllUsers => [ImpersonateUser]
    case ImpersonateNonAdmin => [ImpersonateUser]
    case ManipulateWithOwn => [UserGetOne, UserPatchOne, PermissionsGetAll]
    case SuperAdminRole => [AdminRole, ImpersonateAllUsers, ReAssignAllRoles]
    case AdminRole =>
      [UserGetOne, UserGetAllPaginated, UserPatchOne, UserDeleteOne, PermissionsGetAll,
       ImpersonateNonAdmin, ReAssignNonAdmin, UserRole]
    case UserRole => [ManipulateWithOwn]
    case _ => []
  }

  /** The `ruleName` of each item; only permissions carry one. */
  function RuleOf(k: Key): (r: Option<Rule>)
    ensures r.Some? ==> TypeOf(k) == Permission
  {
    match k
    case ReAssignNonAdmin => Some(ReAssignNonAdminRule)
    case ImpersonateNonAdmin => Some(ImpersonateNonAdminRule)
    case ManipulateWithOwn => Some(ManipulateWithOwnRule)
    case _ => None
  }

  function TypeOf(k: Key): ItemType {
    match k
    case SuperAdminRole => Role
    case AdminRole => Role
    case UserRole => Role
    case TestRole => Role
    case _ => Permission
  }

  function DescriptionOf(k: Key): Option<string> {
    match k
    case UserGetOne => Some("Get single user record by id")
    case UserGetAllPaginated => Some("Get all users")
    case UserPatchOne => Some("Update user record by id")
    case UserDeleteOne => Some("Delete user by id")
    case PermissionsGetAll => Some("Get all roles assigned to user")
    case PermissionsPutManyReplace => Some("Reassign user roles")
    case ReAssignAllRoles => Some("Permission to allow a user to assign and detach any role")
    case ReAssignNonAdmin => Some("Permission to allow a user to assign and detach non-admin roles only")
    case ImpersonateUser => Some("Permission to allow a user to log in as another user")
    case ImpersonateAllUsers => Some("Permission to allow a user to log in as any other user")
    case ImpersonateNonAdmin => Some("Permission to allow a user to log in as non-admin users")
    case ManipulateWithOwn => Some("General permission to update record which belongs to the user")
    case SuperAdminRole => Some("Super Admin role, can do all actions")
    case AdminRole => Some("Admin role")
    case UserRole => None
    case TestRole => Some("Simple test role")
  }

  /** The configuration entry of an item. */
  function ItemOf(k: Key): Item {
    Item(TypeOf(k), DescriptionOf(k), RuleOf(k), Children(k))
  }

  lemma ChildrenRankBelow(k: Key)
    ensures forall c :: c in Children(k) ==> Rank(c) < Rank(k)
  {
  }

  /** An item's own rule holds, or it has none. */
  predicate RuleOk(k: Key, passes: set<Rule>) {
    RuleOf(k).None? || RuleOf(k).value in passes
  }

  /** `t` is reachable from `k` through items whose rules hold (`k` and
      `t` included); `passes` is the set of rules that hold for the request
      at hand. */
  predicate Reaches(k: Key, t: Key, passes: set<Rule>)
    decreases Rank(k)
  {
    RuleOk(k, passes) &&
    (k == t || (ChildrenRankBelow(k); exists c :: c in Children(k) && Reaches(c, t, passes)))
  }

  /** One link of the hierarchy. */
  predicate Link(parent: Key, child: Key) {
    child in Children(parent)
  }

  /** A chain of links from `p[0]` to the last item, every item on it
      passing its rule. */
  predicate IsPath(p: seq<Key>, passes: set<Rule>) {
    |p| >= 1 &&
    (forall i :: 0 <= i < |p| ==> RuleOk(p[i], passes)) &&
    (forall i :: 0 <= i < |p| - 1 ==> Link(p[i], p[i + 1]))
  }

  lemma ConsPath(k: Key, q: seq<Key>, passes: set<Rule>)
    requires RuleOk(k, passes) && IsPath(q, passes) && Link(k, q[0])
    ensures IsPath([k] + q, passes)
    ensures ([k] + q)[0] == k && ([k] + q)[|q|] == q[|q| - 1]
  {
    var p := [k] + q;
    forall i | 0 <= i < |p|
      ensures RuleOk(p[i], passes)
    {
      if i > 0 { assert p[i] == q[i - 1]; }
    }
    forall i | 0 <= i < |p| - 1
      ensures Link(p[i], p[i + 1])
    {
      if i > 0 { assert p[i] == q[i - 1] && p[i + 1] == q[i]; }
    }
  }

  /** Reachability is witnessed by a passing path (soundness). */
  lemma {:induction false} ReachesHasPath(k: Key, t: Key, passes: set<Rule>) returns (p: seq<Key>)
    requires Reaches(k, t, passes)
    ensures IsPath(p, passes) && p[0] == k && p[|p| - 1] == t
    decreases Rank(k)
  {
    if k == t {
      p := [k];
    } else {
      ChildrenRankBelow(k);
      var c :| c in Children(k) && Reaches(c, t, passes);
      var q := ReachesHasPath(c, t, passes);
      ConsPath(k, q, passes);
      p := [k] + q;
    }
  }

  /** The end of every passing path is reachable from its start
      (completeness). */
  lemma {:induction false} PathReaches(p: seq<Key>, passes: set<Rule>)
    requires IsPath(p, passes)
    ensures Reaches(p[0], p[|p| - 1], passes)
    decreases |p|
  {
    if |p| > 1 {
      var q := p[1..];
      assert IsPath(q, passes) by {
        assert forall i :: 0 <= i < |q| ==> q[i] == p[i + 1];
      }
      PathReaches(q, passes);
      assert Link(p[0], p[1]) && RuleOk(p[0], passes);
      assert p[|p| - 1] == q[|q| - 1];
    }
  }

  /** More rules holding never takes access away. */
  lemma {:induction false} ReachesMonotone(k: Key, t: Key, p1: set<Rule>, p2: set<Rule>)
    requires p1 <= p2 && Reaches(k, t, p1)
    ensures Reaches(k, t, p2)
    decreases Rank(k)
  {
    if k != t {
      ChildrenRankBelow(k);
      var c :| c in Children(k) && Reaches(c, t, p1);
      ReachesMonotone(c, t, p1, p2);
    }
  }

  /** A parent whose rule holds reaches what its children reach. */
  lemma ChildReaches(k: Key, c: Key, t: Key, passes: set<Rule>)
    requires RuleOk(k, passes) && c in Children(k) && Reaches(c, t, passes)
    ensures Reaches(k, t, passes)
  {
    ChildrenRankBelow(k);
  }

  /** An item with no children and no rule reaches itself alone. */
  lemma LeafReaches(k: Key, t: Key, passes: set<Rule>)
    requires Children(k) == [] && RuleOf(k).None?
    ensures Reaches(k, t, passes) <==> t == k
  {
  }

  lemma ManipulateWithOwnReaches(t: Key, passes: set<Rule>)
    ensures Reaches(ManipulateWithOwn, t, passes) <==>
      ManipulateWithOwnRule in passes && t in {ManipulateWithOwn, UserGetOne, UserPatchOne, PermissionsGetAll}
  {
    LeafReaches(UserGetOne, t, passes);
    LeafReaches(UserPatchOne, t, passes);
    LeafReaches(PermissionsGetAll, t, passes);
  }

  /** The user role reaches its own record's read and update, and the roles
      list, exactly when the ownership rule holds. */
  lemma UserRoleReaches(t: Key, passes: set<Rule>)
    ensures Reaches(UserRole, t, passes) <==>
      t == UserRole ||
      (ManipulateWithOwnRule in passes && t in {ManipulateWithOwn, UserGetOne, UserPatchOne, PermissionsGetAll})
  {
    ManipulateWithOwnReaches(t, passes);
  }

  /** Whatever the rules say, the user role never reaches deletion or the
      full user list. */
  lemma UserRoleCannotDeleteOrList(passes: set<Rule>)
    ensures !Reaches(UserRole, UserDeleteOne, passes) && !Reaches(UserRole, UserGetAllPaginated, passes)
  {
    UserRoleReaches(UserDeleteOne, passes);
    UserRoleReaches(UserGetAllPaginated, passes);
  }

  lemma ReAssignAllRolesReaches(t: Key, passes: set<Rule>)
    ensures Reaches(ReAssignAllRoles, t, passes) <==> t in {ReAssignAllRoles, PermissionsPutManyReplace}
  {
    LeafReaches(PermissionsPutManyReplace, t, passes);
  }

  lemma ImpersonateAllUsersReaches(t: Key, passes: set<Rule>)
    ensures Reaches(ImpersonateAllUsers, t, passes) <==> t in {ImpersonateAllUsers, ImpersonateUser}
  {
    LeafReaches(ImpersonateUser, t, passes);
  }

  lemma ReAssignNonAdminReaches(t: Key, passes: set<Rule>)
    ensures Reaches(ReAssignNonAdmin, t, passes) <==>
      ReAssignNonAdminRule in passes && t in {ReAssignNonAdmin, PermissionsPutManyReplace}
  {
    LeafReaches(PermissionsPutManyReplace, t, passes);
  }

  lemma ImpersonateNonAdminReaches(t: Key, passes: set<Rule>)
    ensures Reaches(ImpersonateNonAdmin, t, passes) <==>
      ImpersonateNonAdminRule in passes && t in {ImpersonateNonAdmin, ImpersonateUser}
  {
    LeafReaches(ImpersonateUser, t, passes);
  }

  /** The admin role's reach, child by child. */
  lemma AdminRoleReaches(t: Key, passes: set<Rule>)
    ensures Reaches(AdminRole, t, passes) <==>
      t in {AdminRole, UserGetOne, UserGetAllPaginated, UserPatchOne, UserDeleteOne, PermissionsGetAll} ||
      Reaches(ImpersonateNonAdmin, t, passes) || Reaches(ReAssignNonAdmin, t, passes) || Reaches(UserRole, t, passes)
  {
    if Reaches(AdminRole, t, passes) {
      AdminRoleReachesOnly(t, passes);
    }
    if t in {UserGetOne, UserGetAllPaginated, UserPatchOne, UserDeleteOne, PermissionsGetAll} {
      LeafReaches(t, t, passes);
      ChildReaches(AdminRole, t, t, passes);
    }
    if Reaches(ImpersonateNonAdmin, t, passes) {
      ChildReaches(AdminRole, ImpersonateNonAdmin, t, passes);
    }
    if Reaches(ReAssignNonAdmin, t, passes) {
      ChildReaches(AdminRole, ReAssignNonAdmin, t, passes);
    }
    if Reaches(UserRole, t, passes) {
      ChildReaches(AdminRole, UserRole, t, passes);
    }
  }

  lemma AdminRoleReachesOnly(t: Key, passes: set<Rule>)
    requires Reaches(AdminRole, t, passes)
    ensures t in {AdminRole, UserGetOne, UserGetAllPaginated, UserPatchOne, UserDeleteOne, PermissionsGetAll} ||
      Reaches(ImpersonateNonAdmin, t, passes) || Reaches(ReAssignNonAdmin, t, passes) || Reaches(UserRole, t, passes)
  {
    if t != AdminRole {
      var c := SomeChildReaches(AdminRole, t, passes);
      AdminChildren(c);
      if c in {UserGetOne, UserGetAllPaginated, UserPatchOne, UserDeleteOne, PermissionsGetAll} {
        LeafReaches(c, t, passes);
      }
    }
  }

  /** Reaching something else goes through a child. */
  lemma SomeChildReaches(k: Key, t: Key, passes: set<Rule>) returns (c: Key)
    requires Reaches(k, t, passes) && t != k
    ensures c in Children(k) && Reaches(c, t, passes)
  {
    ChildrenRankBelow(k);
    c :| c in Children(k) && Reaches(c, t, passes);
  }

  lemma AdminChildren(c: Key)
    requires c in Children(AdminRole)
    ensures c in {UserGetOne, UserGetAllPaginated, UserPatchOne, UserDeleteOne, PermissionsGetAll,
                  ImpersonateNonAdmin, ReAssignNonAdmin, UserRole}
  {
  }

  /** The admin role: the four user actions, the roles list and the user
      role outright; impersonation and role reassignment only through their
      rules; never the super-admin role. */
  lemma AdminGrants(passes: set<Rule>)
    ensures forall t :: t in {UserGetOne, UserGetAllPaginated, UserPatchOne, UserDeleteOne, PermissionsGetAll, UserRole} ==>
      Reaches(AdminRole, t, passes)
    ensures Reaches(AdminRole, ImpersonateUser, passes) <==> ImpersonateNonAdminRule in passes
    ensures Reaches(AdminRole, PermissionsPutManyReplace, passes) <==> ReAssignNonAdminRule in passes
    ensures !Reaches(AdminRole, SuperAdminRole, passes)
  {
    forall t | t in {UserGetOne, UserGetAllPaginated, UserPatchOne, UserDeleteOne, PermissionsGetAll, UserRole}
      ensures Reaches(AdminRole, t, passes)
    {
      AdminRoleReaches(t, passes);
      UserRoleReaches(t, passes);
    }
    var ts := [ImpersonateUser, PermissionsPutManyReplace, SuperAdminRole];
    forall t | t in ts
      ensures Reaches(AdminRole, t, passes) <==>
        (t == ImpersonateUser && ImpersonateNonAdminRule in passes) ||
        (t == PermissionsPutManyReplace && ReAssignNonAdminRule in passes)
    {
      AdminRoleReaches(t, passes);
      ImpersonateNonAdminReaches(t, passes);
      ReAssignNonAdminReaches(t, passes);
      UserRoleReaches(t, passes);
    }
    assert ts[0] == ImpersonateUser && ts[1] == PermissionsPutManyReplace && ts[2] == SuperAdminRole;
  }

  /** The super-admin role reaches every user action, the roles list,
      impersonation and role reassignment whatever the rules say: the
      rule-bearing items have rule-free siblings leading to the same place. */
  lemma SuperAdminGrants(passes: set<Rule>)
    ensures forall t :: t in {UserGetOne, UserGetAllPaginated, UserPatchOne, UserDeleteOne, PermissionsGetAll,
                              PermissionsPutManyReplace, ImpersonateUser, AdminRole, UserRole} ==>
      Reaches(SuperAdminRole, t, passes)
  {
    AdminGrants(passes);
    forall t | t in {UserGetOne, UserGetAllPaginated, UserPatchOne, UserDeleteOne, PermissionsGetAll, UserRole}
      ensures Reaches(SuperAdminRole, t, passes)
    {
      ChildReaches(SuperAdminRole, AdminRole, t, passes);
    }
    ChildReaches(SuperAdminRole, AdminRole, AdminRole, passes);
    ImpersonateAllUsersReaches(ImpersonateUser, passes);
    ChildReaches(SuperAdminRole, ImpersonateAllUsers, ImpersonateUser, passes);
    ReAssignAllRolesReaches(PermissionsPutManyReplace, passes);
    ChildReaches(SuperAdminRole, ReAssignAllRoles, PermissionsPutManyReplace, passes);
  }

  /** The test role reaches nothing but itself. */
  lemma TestRoleReaches(t: Key, passes: set<Rule>)
    ensures Reaches(TestRole, t, passes) <==> t == TestRole
  {
    LeafReaches(TestRole, t, passes);
  }
}
