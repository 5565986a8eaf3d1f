/** The organization statistics view of migration 005 (internal/database/migrations.go): two LEFT
    JOINs, a WHERE, a GROUP BY and four aggregates, over tables as lists of rows. */
module OrgStats {
  import opened Entries

  datatype Org = Org(id: int, name: string, domain: string, active: bool)
  datatype User = User(id: int, org: int, active: bool, lastLogin: Option<int>)
  datatype Role = Role(id: int, org: int, active: bool)

  /** A joined row; None is the NULL padding of a LEFT JOIN. */
  datatype Row = Row(o: Org, u: Option<User>, r: Option<Role>)

  datatype Group = Group(id: int, name: string, domain: string)
  datatype Aggregates = Aggregates(userCount: nat, roleCount: nat, activeUsers30d: nat, lastUserLogin: Option<int>)

  /** INTERVAL '30 days' in nanoseconds. */
  const THIRTY_DAYS: int := 30 * 24 * 3600 * 1_000_000_000

  // ----- The query -----

  /** The users the first ON clause matches with o. */
  function UsersOf(o: Org, users: seq<User>): (us: seq<User>)
    ensures forall u :: u in us <==> u in users && u.org == o.id && u.active
  {
    if users == [] then []
    else (if users[0].org == o.id && users[0].active then [users[0]] else []) + UsersOf(o, users[1..])
  }

  function RolesOf(o: Org, roles: seq<Role>): (rs: seq<Role>)
    ensures forall r :: r in rs <==> r in roles && r.org == o.id && r.active
  {
    if roles == [] then []
    else (if roles[0].org == o.id && roles[0].active then [roles[0]] else []) + RolesOf(o, roles[1..])
  }

  function Somes<T(!new)>(s: seq<T>): (r: seq<Option<T>>)
    ensures forall x :: Some(x) in r <==> x in s
    ensures None !in r && |r| == |s|
  {
    if s == [] then [] else [Some(s[0])] + Somes(s[1..])
  }

  /** A LEFT JOIN keeps the left row once, padded, when nothing matches. */
  function LeftJoined<T(!new)>(matches: seq<T>): seq<Option<T>> {
    if matches == [] then [None] else Somes(matches)
  }

  function PairWith(o: Org, u: Option<User>, rs: seq<Option<Role>>): (rows: seq<Row>)
    ensures forall row :: row in rows <==> row.o == o && row.u == u && row.r in rs
  {
    if rs == [] then [] else [Row(o, u, rs[0])] + PairWith(o, u, rs[1..])
  }

  function Cross(o: Org, us: seq<Option<User>>, rs: seq<Option<Role>>): (rows: seq<Row>)
    ensures forall row :: row in rows <==> row.o == o && row.u in us && row.r in rs
  {
    if us == [] then [] else PairWith(o, us[0], rs) + Cross(o, us[1..], rs)
  }

  /** FROM organizations LEFT JOIN users LEFT JOIN roles WHERE o.is_active. */
  function Joined(orgs: seq<Org>, users: seq<User>, roles: seq<Role>): (rows: seq<Row>)
    ensures forall row :: row in rows <==>
              && row.o in orgs && row.o.active
              && row.u in LeftJoined(UsersOf(row.o, users))
              && row.r in LeftJoined(RolesOf(row.o, roles))
  {
    if orgs == [] then []
    else
      var o := orgs[0];
      (if o.active then Cross(o, LeftJoined(UsersOf(o, users)), LeftJoined(RolesOf(o, roles))) else [])
      + Joined(orgs[1..], users, roles)
  }

  function GroupOf(o: Org): Group { Group(o.id, o.name, o.domain) }

  function RowsIn(rows: seq<Row>, g: Group): (r: seq<Row>)
    ensures forall row :: row in r <==> row in rows && GroupOf(row.o) == g
  {
    if rows == [] then []
    else (if GroupOf(rows[0].o) == g then [rows[0]] else []) + RowsIn(rows[1..], g)
  }

  function Login(u: Option<User>): Option<int> {
    match u case None => None case Some(u) => u.lastLogin
  }

  function Logins(rows: seq<Row>): (r: seq<Option<int>>)
    ensures forall l :: l in r <==> exists row :: row in rows && Login(row.u) == l
  {
    if rows == [] then []
    else
      assert rows == [rows[0]] + rows[1..];
      [Login(rows[0].u)] + Logins(rows[1..])
  }

  /** MAX, which ignores NULL. */
  function Max(s: seq<Option<int>>): Option<int> {
    if s == [] then None
    else
      var rest := Max(s[1..]);
      if s[0] == None then rest
      else if rest == None || rest.value < s[0].value then s[0]
      else rest
  }

  predicate Recent(u: User, now: int) {
    u.lastLogin.Some? && u.lastLogin.value > now - THIRTY_DAYS
  }

  function Aggregate(rows: seq<Row>, now: int): Aggregates {
    Aggregates(
      |set row | row in rows && row.u.Some? :: row.u.value.id|,
      |set row | row in rows && row.r.Some? :: row.r.value.id|,
      |set row | row in rows && row.u.Some? && Recent(row.u.value, now) :: row.u.value.id|,
      Max(Logins(rows)))
  }

  /** The view: one row a group. */
  function OrganizationStats(orgs: seq<Org>, users: seq<User>, roles: seq<Role>, now: int): map<Group, Aggregates> {
    var rows := Joined(orgs, users, roles);
    map row | row in rows :: GroupOf(row.o) := Aggregate(RowsIn(rows, GroupOf(row.o)), now)
  }

  // ----- What it should count -----

  function RecentUsers(us: seq<User>, now: int): (r: seq<User>)
    ensures forall u :: u in r <==> u in us && Recent(u, now)
    ensures |r| <= |us|
  {
    if us == [] then [] else (if Recent(us[0], now) then [us[0]] else []) + RecentUsers(us[1..], now)
  }

  function LoginsOf(us: seq<User>): (r: seq<Option<int>>)
    ensures forall l :: l in r <==> exists u :: u in us && u.lastLogin == l
  {
    if us == [] then []
    else
      assert us == [us[0]] + us[1..];
      [us[0].lastLogin] + LoginsOf(us[1..])
  }

  /** Counted on each table by itself, without any join. */
  function Independent(o: Org, users: seq<User>, roles: seq<Role>, now: int): Aggregates {
    var us := UsersOf(o, users);
    Aggregates(|us|, |RolesOf(o, roles)|, |RecentUsers(us, now)|, Max(LoginsOf(us)))
  }

  predicate UserIdsDistinct(us: seq<User>) {
    forall i, j | 0 <= i < j < |us| :: us[i].id != us[j].id
  }

  predicate RoleIdsDistinct(rs: seq<Role>) {
    forall i, j | 0 <= i < j < |rs| :: rs[i].id != rs[j].id
  }

  predicate OrgIdsDistinct(orgs: seq<Org>) {
    forall i, j | 0 <= i < j < |orgs| :: orgs[i].id != orgs[j].id
  }

  // ----- The proof -----

  lemma {:induction false} DistinctUsers(us: seq<User>)
    requires UserIdsDistinct(us)
    ensures |set u | u in us :: u.id| == |us|
  {
    if us != [] {
      DistinctUsers(us[1..]);
      var rest := set u | u in us[1..] :: u.id;
      assert us == [us[0]] + us[1..];
      assert (set u | u in us :: u.id) == rest + {us[0].id};
    }
  }

  lemma {:induction false} DistinctRoles(rs: seq<Role>)
    requires RoleIdsDistinct(rs)
    ensures |set r | r in rs :: r.id| == |rs|
  {
    if rs != [] {
      DistinctRoles(rs[1..]);
      var rest := set r | r in rs[1..] :: r.id;
      assert rs == [rs[0]] + rs[1..];
      assert (set r | r in rs :: r.id) == rest + {rs[0].id};
    }
  }

  lemma {:induction false} UsersStayDistinct(o: Org, users: seq<User>, now: int)
    requires UserIdsDistinct(users)
    ensures UserIdsDistinct(UsersOf(o, users)) && UserIdsDistinct(RecentUsers(users, now))
  {
    if users != [] {
      UsersStayDistinct(o, users[1..], now);
      var mine, recent := UsersOf(o, users[1..]), RecentUsers(users[1..], now);
      assert forall i | 0 <= i < |mine| :: mine[i] in users[1..];
      assert forall i | 0 <= i < |recent| :: recent[i] in users[1..];
    }
  }

  lemma {:induction false} RolesStayDistinct(o: Org, roles: seq<Role>)
    requires RoleIdsDistinct(roles)
    ensures RoleIdsDistinct(RolesOf(o, roles))
  {
    if roles != [] {
      RolesStayDistinct(o, roles[1..]);
      var mine := RolesOf(o, roles[1..]);
      assert forall i | 0 <= i < |mine| :: mine[i] in roles[1..];
    }
  }

  lemma {:induction false} MaxIsTheGreatest(s: seq<Option<int>>)
    ensures Max(s).None? ==> forall l | l in s :: l.None?
    ensures Max(s).Some? ==> Max(s) in s && forall l | l in s && l.Some? :: l.value <= Max(s).value
  {
    if s != [] {
      MaxIsTheGreatest(s[1..]);
      assert s == [s[0]] + s[1..];
    }
  }

  lemma MaxOfSameValues(s: seq<Option<int>>, t: seq<Option<int>>)
    requires forall v: int :: Some(v) in s <==> Some(v) in t
    ensures Max(s) == Max(t)
  {
    MaxIsTheGreatest(s);
    MaxIsTheGreatest(t);
    if Max(s).Some? {
      assert Some(Max(s).value) in t;
    }
    if Max(t).Some? {
      assert Some(Max(t).value) in s;
    }
  }

  /** The rows are the cross product of the two sides, each padded if empty. */
  ghost predicate IsProduct(o: Org, us: seq<User>, rs: seq<Role>, rows: seq<Row>) {
    forall row :: row in rows <==> row.o == o && row.u in LeftJoined(us) && row.r in LeftJoined(rs)
  }

  /** With one row an organization id, the group of o is o's own cross product. */
  lemma GroupIsCrossProduct(orgs: seq<Org>, users: seq<User>, roles: seq<Role>, o: Org)
    requires OrgIdsDistinct(orgs) && o in orgs && o.active
    ensures IsProduct(o, UsersOf(o, users), RolesOf(o, roles), RowsIn(Joined(orgs, users, roles), GroupOf(o)))
  {
    forall row | row in Joined(orgs, users, roles) && GroupOf(row.o) == GroupOf(o)
      ensures row.o == o
    {
      var i, j :| 0 <= i < |orgs| && 0 <= j < |orgs| && orgs[i] == o && orgs[j] == row.o;
    }
  }

  /** Neither side of the product loses a user or a role, whatever padding the other side has. */
  lemma ProductKeepsBothSides(o: Org, us: seq<User>, rs: seq<Role>, rows: seq<Row>)
    requires IsProduct(o, us, rs, rows)
    ensures forall u :: u in us <==> exists row :: row in rows && row.u == Some(u)
    ensures forall r :: r in rs <==> exists row :: row in rows && row.r == Some(r)
  {
    var someRole := LeftJoined(rs)[0];
    var someUser := LeftJoined(us)[0];
    forall u | u in us
      ensures exists row :: row in rows && row.u == Some(u)
    {
      assert Row(o, Some(u), someRole) in rows;
    }
    forall r | r in rs
      ensures exists row :: row in rows && row.r == Some(r)
    {
      assert Row(o, someUser, Some(r)) in rows;
    }
  }

  lemma UserCountOfProduct(o: Org, us: seq<User>, rs: seq<Role>, rows: seq<Row>)
    requires UserIdsDistinct(us) && IsProduct(o, us, rs, rows)
    ensures |set row | row in rows && row.u.Some? :: row.u.value.id| == |us|
  {
    ProductKeepsBothSides(o, us, rs, rows);
    DistinctUsers(us);
    assert (set row | row in rows && row.u.Some? :: row.u.value.id) == set u | u in us :: u.id;
  }

  lemma RoleCountOfProduct(o: Org, us: seq<User>, rs: seq<Role>, rows: seq<Row>)
    requires RoleIdsDistinct(rs) && IsProduct(o, us, rs, rows)
    ensures |set row | row in rows && row.r.Some? :: row.r.value.id| == |rs|
  {
    ProductKeepsBothSides(o, us, rs, rows);
    DistinctRoles(rs);
    assert (set row | row in rows && row.r.Some? :: row.r.value.id) == set r | r in rs :: r.id;
  }

  lemma RecentCountOfProduct(o: Org, us: seq<User>, rs: seq<Role>, rows: seq<Row>, now: int)
    requires UserIdsDistinct(us) && IsProduct(o, us, rs, rows)
    ensures |set row | row in rows && row.u.Some? && Recent(row.u.value, now) :: row.u.value.id|
         == |RecentUsers(us, now)|
  {
    ProductKeepsBothSides(o, us, rs, rows);
    UsersStayDistinct(o, us, now);
    DistinctUsers(RecentUsers(us, now));
    assert (set row | row in rows && row.u.Some? && Recent(row.u.value, now) :: row.u.value.id)
        == set u | u in RecentUsers(us, now) :: u.id;
  }

  lemma LastLoginOfProduct(o: Org, us: seq<User>, rs: seq<Role>, rows: seq<Row>)
    requires IsProduct(o, us, rs, rows)
    ensures Max(Logins(rows)) == Max(LoginsOf(us))
  {
    ProductKeepsBothSides(o, us, rs, rows);
    forall v: int
      ensures Some(v) in Logins(rows) <==> Some(v) in LoginsOf(us)
    {
      if Some(v) in Logins(rows) {
        var row :| row in rows && Login(row.u) == Some(v);
        assert row.u.value in us;
      }
      if Some(v) in LoginsOf(us) {
        var u :| u in us && u.lastLogin == Some(v);
        var row :| row in rows && row.u == Some(u);
        assert Login(row.u) == Some(v);
      }
    }
    MaxOfSameValues(Logins(rows), LoginsOf(us));
  }

  lemma OneGroup(orgs: seq<Org>, users: seq<User>, roles: seq<Role>, now: int, o: Org)
    requires OrgIdsDistinct(orgs) && UserIdsDistinct(users) && RoleIdsDistinct(roles)
    requires o in orgs && o.active
    ensures
      var view := OrganizationStats(orgs, users, roles, now);
      GroupOf(o) in view && view[GroupOf(o)] == Independent(o, users, roles, now)
  {
    var rows := Joined(orgs, users, roles);
    assert Row(o, LeftJoined(UsersOf(o, users))[0], LeftJoined(RolesOf(o, roles))[0]) in rows;
    UsersStayDistinct(o, users, now);
    RolesStayDistinct(o, roles);
    GroupIsCrossProduct(orgs, users, roles, o);
    AggregateOfProduct(o, UsersOf(o, users), RolesOf(o, roles), RowsIn(rows, GroupOf(o)), now);
  }

  lemma AggregateOfProduct(o: Org, us: seq<User>, rs: seq<Role>, rows: seq<Row>, now: int)
    requires UserIdsDistinct(us) && RoleIdsDistinct(rs) && IsProduct(o, us, rs, rows)
    ensures Aggregate(rows, now) == Aggregates(|us|, |rs|, |RecentUsers(us, now)|, Max(LoginsOf(us)))
  {
    UserCountOfProduct(o, us, rs, rows);
    RoleCountOfProduct(o, us, rs, rows);
    RecentCountOfProduct(o, us, rs, rows, now);
    LastLoginOfProduct(o, us, rs, rows);
  }

  lemma GroupsOfView(orgs: seq<Org>, users: seq<User>, roles: seq<Role>, now: int, g: Group)
    ensures g in OrganizationStats(orgs, users, roles, now) <==> exists o :: o in orgs && o.active && GroupOf(o) == g
  {
    var rows := Joined(orgs, users, roles);
    forall o | o in orgs && o.active
      ensures exists row :: row in rows && row.o == o
    {
      assert Row(o, LeftJoined(UsersOf(o, users))[0], LeftJoined(RolesOf(o, roles))[0]) in rows;
    }
  }

  /** The view has exactly one row for each active organization and none for any other; its counts and
      its last login are those of the organization's active users and active roles counted apart, cross
      product and padding notwithstanding; and recently active users are among the users. */
  lemma StatsAreIndependentCounts(orgs: seq<Org>, users: seq<User>, roles: seq<Role>, now: int)
    requires OrgIdsDistinct(orgs) && UserIdsDistinct(users) && RoleIdsDistinct(roles)
    ensures
      var view := OrganizationStats(orgs, users, roles, now);
      && (forall g :: g in view <==> exists o :: o in orgs && o.active && GroupOf(o) == g)
      && (forall o | o in orgs && o.active :: view[GroupOf(o)] == Independent(o, users, roles, now))
      && (forall g | g in view :: view[g].activeUsers30d <= view[g].userCount)
  {
    var view := OrganizationStats(orgs, users, roles, now);
    forall g
      ensures g in view <==> exists o :: o in orgs && o.active && GroupOf(o) == g
    {
      GroupsOfView(orgs, users, roles, now, g);
    }
    forall o | o in orgs && o.active
      ensures GroupOf(o) in view && view[GroupOf(o)] == Independent(o, users, roles, now)
    {
      OneGroup(orgs, users, roles, now, o);
    }
  }

  /** So the unique index on organization_id can be built. */
  lemma OrganizationIndexIsValid(orgs: seq<Org>, users: seq<User>, roles: seq<Role>, now: int, g: Group, h: Group)
    requires OrgIdsDistinct(orgs)
    requires g in OrganizationStats(orgs, users, roles, now) && h in OrganizationStats(orgs, users, roles, now)
    ensures g.id == h.id ==> g == h
  {
    GroupsOfView(orgs, users, roles, now, g);
    GroupsOfView(orgs, users, roles, now, h);
    var o1 :| o1 in orgs && GroupOf(o1) == g;
    var o2 :| o2 in orgs && GroupOf(o2) == h;
    var i, j :| 0 <= i < |orgs| && 0 <= j < |orgs| && orgs[i] == o1 && orgs[j] == o2;
  }

  /** The same in plain sets: the users of an active organization are its active users, recent are those of
      them with a login less than 30 days of nanoseconds ago, and the last login is the greatest of theirs. */
  lemma StatsInPlainSets(orgs: seq<Org>, users: seq<User>, roles: seq<Role>, now: int, o: Org)
    requires OrgIdsDistinct(orgs) && UserIdsDistinct(users) && RoleIdsDistinct(roles)
    requires o in orgs && o.active
    ensures Group(o.id, o.name, o.domain) in OrganizationStats(orgs, users, roles, now)
    ensures
      var row := OrganizationStats(orgs, users, roles, now)[Group(o.id, o.name, o.domain)];
      && row.userCount == |set u | u in users && u.org == o.id && u.active :: u.id|
      && row.roleCount == |set r | r in roles && r.org == o.id && r.active :: r.id|
      && row.activeUsers30d ==
         |set u | u in users && u.org == o.id && u.active && u.lastLogin.Some?
                  && u.lastLogin.value > now - 2_592_000_000_000_000 :: u.id|
      && (row.lastUserLogin == None <==> forall u | u in users && u.org == o.id && u.active :: u.lastLogin == None)
      && (row.lastUserLogin.Some? ==>
            && (exists u :: u in users && u.org == o.id && u.active && u.lastLogin == row.lastUserLogin)
            && forall u | u in users && u.org == o.id && u.active && u.lastLogin.Some? ::
                 u.lastLogin.value <= row.lastUserLogin.value)
  {
    OneGroup(orgs, users, roles, now, o);
    PlainCounts(o, users, roles, now);
    PlainMax(o, users);
  }

  lemma PlainCounts(o: Org, users: seq<User>, roles: seq<Role>, now: int)
    requires UserIdsDistinct(users) && RoleIdsDistinct(roles)
    ensures |UsersOf(o, users)| == |set u | u in users && u.org == o.id && u.active :: u.id|
    ensures |RolesOf(o, roles)| == |set r | r in roles && r.org == o.id && r.active :: r.id|
    ensures |RecentUsers(UsersOf(o, users), now)| ==
            |set u | u in users && u.org == o.id && u.active && u.lastLogin.Some?
                     && u.lastLogin.value > now - 2_592_000_000_000_000 :: u.id|
  {
    var us, rs := UsersOf(o, users), RolesOf(o, roles);
    UsersStayDistinct(o, users, now);
    UsersStayDistinct(o, us, now);
    RolesStayDistinct(o, roles);
    DistinctUsers(us);
    DistinctRoles(rs);
    DistinctUsers(RecentUsers(us, now));
    assert (set u | u in us :: u.id) == set u | u in users && u.org == o.id && u.active :: u.id;
    assert (set r | r in rs :: r.id) == set r | r in roles && r.org == o.id && r.active :: r.id;
    assert (set u | u in RecentUsers(us, now) :: u.id)
        == set u | u in users && u.org == o.id && u.active && u.lastLogin.Some?
                   && u.lastLogin.value > now - 2_592_000_000_000_000 :: u.id;
  }

  lemma PlainMax(o: Org, users: seq<User>)
    ensures
      var m := Max(LoginsOf(UsersOf(o, users)));
      && (m == None <==> forall u | u in users && u.org == o.id && u.active :: u.lastLogin == None)
      && (m.Some? ==>
            && (exists u :: u in users && u.org == o.id && u.active && u.lastLogin == m)
            && forall u | u in users && u.org == o.id && u.active && u.lastLogin.Some? :: u.lastLogin.value <= m.value)
  {
    var us := UsersOf(o, users);
    var logins := LoginsOf(us);
    MaxIsTheGreatest(logins);
    forall u | u in users && u.org == o.id && u.active
      ensures u.lastLogin in logins
    {
      assert u in us;
    }
    if Max(logins).Some? {
      var u :| u in us && u.lastLogin == Max(logins);
      assert u in users && u.org == o.id && u.active;
    }
  }
}
