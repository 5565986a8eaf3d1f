/** The user permission view of migration 005 (internal/database/migrations.go): four tables joined as
    bags, so that a row may come out more than once. */
module UserPermissions {

  datatype UserRole = UserRole(user: int, role: int)
  datatype Role = Role(id: int, active: bool, organization: int)
  datatype RolePermission = RolePermission(role: int, permission: int)
  datatype Permission = Permission(id: int, name: string, system: bool)

  datatype Row = Row(user: int, permission: int, name: string, organization: int)

  datatype Tables = Tables(
    userRoles: seq<UserRole>, roles: seq<Role>, rolePermissions: seq<RolePermission>, permissions: seq<Permission>)

  // ----- The query, one nested loop a join -----

  /** JOIN permissions ON rp.permission_id = p.id, with the WHERE. */
  function WithPermission(ur: UserRole, r: Role, rp: RolePermission, ps: seq<Permission>): seq<Row> {
    if ps == [] then []
    else
      (if rp.permission == ps[0].id && r.active && !ps[0].system
       then [Row(ur.user, ps[0].id, ps[0].name, r.organization)] else [])
      + WithPermission(ur, r, rp, ps[1..])
  }

  /** JOIN role_permissions ON r.id = rp.role_id. */
  function WithLinks(ur: UserRole, r: Role, rps: seq<RolePermission>, ps: seq<Permission>): seq<Row> {
    if rps == [] then []
    else (if rps[0].role == r.id then WithPermission(ur, r, rps[0], ps) else []) + WithLinks(ur, r, rps[1..], ps)
  }

  /** JOIN roles ON ur.role_id = r.id. */
  function WithRoles(ur: UserRole, rs: seq<Role>, rps: seq<RolePermission>, ps: seq<Permission>): seq<Row> {
    if rs == [] then []
    else (if ur.role == rs[0].id then WithLinks(ur, rs[0], rps, ps) else []) + WithRoles(ur, rs[1..], rps, ps)
  }

  function FromUserRoles(urs: seq<UserRole>, rs: seq<Role>, rps: seq<RolePermission>, ps: seq<Permission>): seq<Row> {
    if urs == [] then [] else WithRoles(urs[0], rs, rps, ps) + FromUserRoles(urs[1..], rs, rps, ps)
  }

  function View(t: Tables): seq<Row> {
    FromUserRoles(t.userRoles, t.roles, t.rolePermissions, t.permissions)
  }

  // ----- What it should contain -----

  /** How often (u, p) occurs. */
  function Count(rows: seq<Row>, u: int, p: int): nat {
    if rows == [] then 0
    else (if rows[0].user == u && rows[0].permission == p then 1 else 0) + Count(rows[1..], u, p)
  }

  /** The roles through which u gets p. */
  function Through(t: Tables, u: int, p: int): set<int> {
    set r |
      && r in t.roles && r.active
      && UserRole(u, r.id) in t.userRoles
      && RolePermission(r.id, p) in t.rolePermissions
      :: r.id
  }

  /** p is a permission and not a system one. */
  predicate Ordinary(ps: seq<Permission>, p: int) {
    exists i | 0 <= i < |ps| :: ps[i].id == p && !ps[i].system
  }

  /** Unique ids and unique link rows. */
  predicate Keyed(t: Tables) {
    && (forall i, j | 0 <= i < j < |t.userRoles| :: t.userRoles[i] != t.userRoles[j])
    && (forall i, j | 0 <= i < j < |t.rolePermissions| :: t.rolePermissions[i] != t.rolePermissions[j])
    && RolesKeyed(t.roles) && PermissionsKeyed(t.permissions)
  }

  predicate RolesKeyed(rs: seq<Role>) {
    forall i, j | 0 <= i < j < |rs| :: rs[i].id != rs[j].id
  }

  predicate PermissionsKeyed(ps: seq<Permission>) {
    forall i, j | 0 <= i < j < |ps| :: ps[i].id != ps[j].id
  }

  // ----- The proof, one lemma a join -----

  lemma {:induction false} CountAppended(a: seq<Row>, b: seq<Row>, u: int, p: int)
    ensures Count(a + b, u, p) == Count(a, u, p) + Count(b, u, p)
  {
    if a == [] {
      assert a + b == b;
    } else {
      assert (a + b)[1..] == a[1..] + b;
      CountAppended(a[1..], b, u, p);
    }
  }

  lemma {:induction false} OnePermission(ur: UserRole, r: Role, rp: RolePermission, ps: seq<Permission>, u: int, p: int)
    requires PermissionsKeyed(ps)
    ensures Count(WithPermission(ur, r, rp, ps), u, p)
         == if ur.user == u && r.active && rp.permission == p && Ordinary(ps, p) then 1 else 0
  {
    if ps != [] {
      OnePermission(ur, r, rp, ps[1..], u, p);
      var all, further := WithPermission(ur, r, rp, ps), WithPermission(ur, r, rp, ps[1..]);
      CountAppended(all[..|all| - |further|], further, u, p);
      assert Ordinary(ps, p) <==> (ps[0].id == p && !ps[0].system) || Ordinary(ps[1..], p) by {
        if Ordinary(ps[1..], p) {
          var i :| 0 <= i < |ps| - 1 && ps[1..][i].id == p && !ps[1..][i].system;
          assert ps[i + 1].id == p && !ps[i + 1].system;
        }
        if Ordinary(ps, p) {
          var i :| 0 <= i < |ps| && ps[i].id == p && !ps[i].system;
          assert i > 0 ==> ps[1..][i - 1].id == p && !ps[1..][i - 1].system;
        }
      }
    }
  }

  lemma {:induction false} OneLink(ur: UserRole, r: Role, rps: seq<RolePermission>, ps: seq<Permission>, u: int, p: int)
    requires PermissionsKeyed(ps)
    requires forall i, j | 0 <= i < j < |rps| :: rps[i] != rps[j]
    ensures Count(WithLinks(ur, r, rps, ps), u, p)
         == if ur.user == u && r.active && RolePermission(r.id, p) in rps && Ordinary(ps, p) then 1 else 0
  {
    if rps != [] {
      OneLink(ur, r, rps[1..], ps, u, p);
      OnePermission(ur, r, rps[0], ps, u, p);
      var here := if rps[0].role == r.id then WithPermission(ur, r, rps[0], ps) else [];
      CountAppended(here, WithLinks(ur, r, rps[1..], ps), u, p);
      assert rps == [rps[0]] + rps[1..];
      assert rps[0] !in rps[1..];
    }
  }

  /** The role is active and carries p. */
  predicate Carries(rs: seq<Role>, rps: seq<RolePermission>, role: int, p: int) {
    (exists i | 0 <= i < |rs| :: rs[i].id == role && rs[i].active) && RolePermission(role, p) in rps
  }

  lemma {:induction false} OneRole(
    ur: UserRole, rs: seq<Role>, rps: seq<RolePermission>, ps: seq<Permission>, u: int, p: int)
    requires PermissionsKeyed(ps) && RolesKeyed(rs)
    requires forall i, j | 0 <= i < j < |rps| :: rps[i] != rps[j]
    ensures Count(WithRoles(ur, rs, rps, ps), u, p)
         == if ur.user == u && Carries(rs, rps, ur.role, p) && Ordinary(ps, p) then 1 else 0
  {
    if rs != [] {
      OneRole(ur, rs[1..], rps, ps, u, p);
      OneLink(ur, rs[0], rps, ps, u, p);
      var here := if ur.role == rs[0].id then WithLinks(ur, rs[0], rps, ps) else [];
      CountAppended(here, WithRoles(ur, rs[1..], rps, ps), u, p);
      var isThere := (exists i | 0 <= i < |rs| :: rs[i].id == ur.role && rs[i].active);
      var isFurther := (exists i | 0 <= i < |rs[1..]| :: rs[1..][i].id == ur.role && rs[1..][i].active);
      assert isThere <==> (rs[0].id == ur.role && rs[0].active) || isFurther by {
        if isFurther {
          var i :| 0 <= i < |rs[1..]| && rs[1..][i].id == ur.role && rs[1..][i].active;
          assert rs[i + 1].id == ur.role && rs[i + 1].active;
        }
        if isThere {
          var i :| 0 <= i < |rs| && rs[i].id == ur.role && rs[i].active;
          assert i > 0 ==> rs[1..][i - 1].id == ur.role && rs[1..][i - 1].active;
        }
      }
    }
  }

  /** The roles u holds that carry p. */
  function Held(urs: seq<UserRole>, rs: seq<Role>, rps: seq<RolePermission>, u: int, p: int): set<int> {
    set ur | ur in urs && ur.user == u && Carries(rs, rps, ur.role, p) :: ur.role
  }

  lemma {:induction false} CountFromUserRoles(
    urs: seq<UserRole>, rs: seq<Role>, rps: seq<RolePermission>, ps: seq<Permission>, u: int, p: int)
    requires PermissionsKeyed(ps) && RolesKeyed(rs)
    requires forall i, j | 0 <= i < j < |rps| :: rps[i] != rps[j]
    requires forall i, j | 0 <= i < j < |urs| :: urs[i] != urs[j]
    ensures Count(FromUserRoles(urs, rs, rps, ps), u, p)
         == if Ordinary(ps, p) then |Held(urs, rs, rps, u, p)| else 0
  {
    if urs != [] {
      var ur, rest := urs[0], urs[1..];
      CountFromUserRoles(rest, rs, rps, ps, u, p);
      OneRole(ur, rs, rps, ps, u, p);
      CountAppended(WithRoles(ur, rs, rps, ps), FromUserRoles(rest, rs, rps, ps), u, p);
      var further := Held(rest, rs, rps, u, p);
      assert urs == [ur] + rest;
      if ur.user == u && Carries(rs, rps, ur.role, p) {
        assert Held(urs, rs, rps, u, p) == further + {ur.role};
        assert ur !in rest;
        assert ur.role !in further;
      } else {
        assert Held(urs, rs, rps, u, p) == further;
      }
    }
  }

  lemma HeldIsThrough(t: Tables, u: int, p: int)
    ensures Held(t.userRoles, t.roles, t.rolePermissions, u, p) == Through(t, u, p)
  {
    forall id | id in Held(t.userRoles, t.roles, t.rolePermissions, u, p)
      ensures id in Through(t, u, p)
    {
      var i :| 0 <= i < |t.roles| && t.roles[i].id == id && t.roles[i].active;
      assert t.roles[i] in t.roles;
      assert UserRole(u, id) in t.userRoles;
    }
    forall id | id in Through(t, u, p)
      ensures id in Held(t.userRoles, t.roles, t.rolePermissions, u, p)
    {
      var r :| r in t.roles && r.active && UserRole(u, r.id) in t.userRoles
               && RolePermission(r.id, p) in t.rolePermissions && r.id == id;
      var i :| 0 <= i < |t.roles| && t.roles[i] == r;
      assert Carries(t.roles, t.rolePermissions, id, p);
      assert UserRole(u, id).role == id;
    }
  }

  /** (u, p) is in the view once for each active role through which u gets p, if p is an ordinary
      permission; else it is not in the view at all. */
  lemma Multiplicity(t: Tables, u: int, p: int)
    requires Keyed(t)
    ensures Count(View(t), u, p) == if Ordinary(t.permissions, p) then |Through(t, u, p)| else 0
  {
    CountFromUserRoles(t.userRoles, t.roles, t.rolePermissions, t.permissions, u, p);
    HeldIsThrough(t, u, p);
  }

  // ----- What is in a row -----

  /** The row joins a link of a user to an active role, that role, a link of it to a permission, and that
      permission, which is no system one. */
  predicate Joins(row: Row, ur: UserRole, r: Role, rp: RolePermission, p: Permission) {
    && ur.role == r.id && rp.role == r.id && rp.permission == p.id && r.active && !p.system
    && row == Row(ur.user, p.id, p.name, r.organization)
  }

  lemma {:induction false} RowsWithPermission(ur: UserRole, r: Role, rp: RolePermission, ps: seq<Permission>, row: Row)
    requires ur.role == r.id && rp.role == r.id
    ensures row in WithPermission(ur, r, rp, ps) <==> exists p :: p in ps && Joins(row, ur, r, rp, p)
  {
    if ps != [] {
      RowsWithPermission(ur, r, rp, ps[1..], row);
      assert ps == [ps[0]] + ps[1..];
      var first, further := Row(ur.user, ps[0].id, ps[0].name, r.organization), WithPermission(ur, r, rp, ps[1..]);
      var here := if rp.permission == ps[0].id && r.active && !ps[0].system then [first] else [];
      assert WithPermission(ur, r, rp, ps) == here + further;
      assert row in here <==> Joins(row, ur, r, rp, ps[0]);
      if row in further {
        var p :| p in ps[1..] && Joins(row, ur, r, rp, p);
      }
      if exists p :: p in ps && Joins(row, ur, r, rp, p) {
        var p :| p in ps && Joins(row, ur, r, rp, p);
        assert p == ps[0] || p in ps[1..];
      }
    }
  }

  lemma {:induction false} RowsWithLinks(
    ur: UserRole, r: Role, rps: seq<RolePermission>, ps: seq<Permission>, row: Row)
    requires ur.role == r.id
    ensures row in WithLinks(ur, r, rps, ps) <==> exists rp, p :: rp in rps && p in ps && Joins(row, ur, r, rp, p)
  {
    if rps != [] {
      RowsWithLinks(ur, r, rps[1..], ps, row);
      assert rps == [rps[0]] + rps[1..];
      if rps[0].role == r.id {
        RowsWithPermission(ur, r, rps[0], ps, row);
      }
      if exists rp, p :: rp in rps && p in ps && Joins(row, ur, r, rp, p) {
        var rp, p :| rp in rps && p in ps && Joins(row, ur, r, rp, p);
        assert rp == rps[0] || rp in rps[1..];
      }
    }
  }

  lemma {:induction false} RowsWithRoles(
    ur: UserRole, rs: seq<Role>, rps: seq<RolePermission>, ps: seq<Permission>, row: Row)
    ensures row in WithRoles(ur, rs, rps, ps) <==>
            exists r, rp, p :: r in rs && rp in rps && p in ps && Joins(row, ur, r, rp, p)
  {
    if rs != [] {
      RowsWithRoles(ur, rs[1..], rps, ps, row);
      assert rs == [rs[0]] + rs[1..];
      if ur.role == rs[0].id {
        RowsWithLinks(ur, rs[0], rps, ps, row);
        if row in WithLinks(ur, rs[0], rps, ps) {
          var rp, p :| rp in rps && p in ps && Joins(row, ur, rs[0], rp, p);
        }
      }
      if row in WithRoles(ur, rs[1..], rps, ps) {
        var r, rp, p :| r in rs[1..] && rp in rps && p in ps && Joins(row, ur, r, rp, p);
      }
      if exists r, rp, p :: r in rs && rp in rps && p in ps && Joins(row, ur, r, rp, p) {
        var r, rp, p :| r in rs && rp in rps && p in ps && Joins(row, ur, r, rp, p);
        assert r == rs[0] || r in rs[1..];
      }
    }
  }

  lemma {:induction false} RowsFromUserRoles(
    urs: seq<UserRole>, rs: seq<Role>, rps: seq<RolePermission>, ps: seq<Permission>, row: Row)
    ensures row in FromUserRoles(urs, rs, rps, ps) <==>
            exists ur, r, rp, p :: ur in urs && r in rs && rp in rps && p in ps && Joins(row, ur, r, rp, p)
  {
    if urs != [] {
      RowsFromUserRoles(urs[1..], rs, rps, ps, row);
      assert urs == [urs[0]] + urs[1..];
      RowsWithRoles(urs[0], rs, rps, ps, row);
      if exists ur, r, rp, p :: ur in urs && r in rs && rp in rps && p in ps && Joins(row, ur, r, rp, p) {
        var ur, r, rp, p :| ur in urs && r in rs && rp in rps && p in ps && Joins(row, ur, r, rp, p);
        assert ur == urs[0] || ur in urs[1..];
      }
    }
  }

  /** For any tables, keyed or not, the rows of the view are exactly those of such joins, each with the
      permission's name and the role's organization. */
  lemma RowsAreJoins(t: Tables, row: Row)
    ensures row in View(t) <==>
            exists ur, r, rp, p ::
              && ur in t.userRoles && r in t.roles && rp in t.rolePermissions && p in t.permissions
              && ur.role == r.id && rp.role == r.id && rp.permission == p.id && r.active && !p.system
              && row == Row(ur.user, p.id, p.name, r.organization)
  {
    RowsFromUserRoles(t.userRoles, t.roles, t.rolePermissions, t.permissions, row);
    if row in View(t) {
      var ur, r, rp, p :|
        && ur in t.userRoles && r in t.roles && rp in t.rolePermissions && p in t.permissions
        && Joins(row, ur, r, rp, p);
    }
    if exists ur, r, rp, p ::
         && ur in t.userRoles && r in t.roles && rp in t.rolePermissions && p in t.permissions
         && ur.role == r.id && rp.role == r.id && rp.permission == p.id && r.active && !p.system
         && row == Row(ur.user, p.id, p.name, r.organization)
    {
      var ur, r, rp, p :|
        && ur in t.userRoles && r in t.roles && rp in t.rolePermissions && p in t.permissions
        && ur.role == r.id && rp.role == r.id && rp.permission == p.id && r.active && !p.system
        && row == Row(ur.user, p.id, p.name, r.organization);
      assert Joins(row, ur, r, rp, p);
    }
  }

  /** UNIQUE (user_id, permission_id) over the rows of the view. */
  predicate UniqueIndexHolds(rows: seq<Row>) {
    forall i, j | 0 <= i < j < |rows| :: !(rows[i].user == rows[j].user && rows[i].permission == rows[j].permission)
  }

  lemma {:induction false} CountPositive(rows: seq<Row>, u: int, p: int)
    ensures Count(rows, u, p) > 0 <==> exists i | 0 <= i < |rows| :: rows[i].user == u && rows[i].permission == p
  {
    if rows != [] {
      CountPositive(rows[1..], u, p);
      if Count(rows[1..], u, p) > 0 {
        var i :| 0 <= i < |rows| - 1 && rows[1..][i].user == u && rows[1..][i].permission == p;
        assert rows[i + 1].user == u && rows[i + 1].permission == p;
      }
      if exists i | 0 <= i < |rows| :: rows[i].user == u && rows[i].permission == p {
        var i :| 0 <= i < |rows| && rows[i].user == u && rows[i].permission == p;
        assert i > 0 ==> rows[1..][i - 1].user == u && rows[1..][i - 1].permission == p;
      }
    }
  }

  lemma {:induction false} UniqueSoOnce(rows: seq<Row>, u: int, p: int)
    requires UniqueIndexHolds(rows)
    ensures Count(rows, u, p) <= 1
  {
    if rows != [] {
      var rest := rows[1..];
      UniqueSoOnce(rest, u, p);
      CountPositive(rest, u, p);
      if Count(rest, u, p) > 0 {
        var i :| 0 <= i < |rest| && rest[i].user == u && rest[i].permission == p;
        assert rows[i + 1] == rest[i];
      }
    }
  }

  lemma {:induction false} TwiceIsCounted(rows: seq<Row>, i: nat, j: nat)
    requires i < j < |rows| && rows[i].user == rows[j].user && rows[i].permission == rows[j].permission
    ensures Count(rows, rows[i].user, rows[i].permission) > 1
  {
    var rest := rows[1..];
    if i > 0 {
      TwiceIsCounted(rest, i - 1, j - 1);
    } else {
      assert rest[j - 1] == rows[j];
      CountPositive(rest, rows[0].user, rows[0].permission);
    }
  }

  /** The unique index can be built iff no user gets the same ordinary permission through two active
      roles. */
  lemma UniqueIndexCondition(t: Tables)
    requires Keyed(t)
    ensures UniqueIndexHolds(View(t)) <==>
            forall u, p | Ordinary(t.permissions, p) :: |Through(t, u, p)| <= 1
  {
    var rows := View(t);
    if UniqueIndexHolds(rows) {
      forall u, p | Ordinary(t.permissions, p)
        ensures |Through(t, u, p)| <= 1
      {
        Multiplicity(t, u, p);
        UniqueSoOnce(rows, u, p);
      }
    } else {
      var i, j :| 0 <= i < j < |rows| && rows[i].user == rows[j].user && rows[i].permission == rows[j].permission;
      TwiceIsCounted(rows, i, j);
      Multiplicity(t, rows[i].user, rows[i].permission);
    }
  }

  /** It can fail: a user with two active roles that both carry an ordinary permission. */
  lemma UniqueIndexCanFail(u: int, r1: int, r2: int, p: int, name: string, org: int) returns (t: Tables)
    requires r1 != r2
    ensures Keyed(t) && !UniqueIndexHolds(View(t))
    ensures t.permissions == [Permission(p, name, false)] && Through(t, u, p) == {r1, r2}
  {
    t := Tables([UserRole(u, r1), UserRole(u, r2)], [Role(r1, true, org), Role(r2, true, org)],
                [RolePermission(r1, p), RolePermission(r2, p)], [Permission(p, name, false)]);
    assert t.roles[0].id in Through(t, u, p) && t.roles[1].id in Through(t, u, p);
    assert Through(t, u, p) == {r1, r2};
    assert t.permissions[0].id == p;
    UniqueIndexCondition(t);
  }
}
