/** The inserts that create an organization, and what their transaction adds to users' active access. */
module OrganizationCreation {
  import opened Wrappers
  import opened Migrations
  import opened AccessQuery

  datatype Failure = Violation(error: Error) | DatabaseFailed

  datatype NewOrganization = NewOrganization(id: Id, owner: Id, name: string)
  datatype NewRole = NewRole(id: Id, organization: Id, name: string, systemKey: Option<RoleName>)
  datatype NewMembership = NewMembership(organization: Id, user: Id, role: Id, status: Status)

  // ----- the three inserts, each with the constraints it can violate -----

  function OrganizationRow(n: NewOrganization, now: int): Organization {
    Organization(n.name, now, now, Some(n.owner), None, None)
  }

  function InsertOrganization(d: Database, n: NewOrganization, now: int): Result<Database, Error> {
    if !NotBlank(n.name) then Err(CheckViolation)
    else if n.id in d.organizations then Err(UniqueViolation)
    else if n.owner !in d.users then Err(ForeignKeyViolation)
    else Ok(d.(organizations := d.organizations[n.id := OrganizationRow(n, now)]))
  }

  function RoleRow(n: NewRole, now: int): Role {
    Role(n.organization, n.name, n.systemKey, now, now, None)
  }

  predicate SameKey(role: Role, n: NewRole) {
    role.organization == n.organization && n.systemKey.Some? && role.systemKey == n.systemKey
  }

  predicate SameName(role: Role, n: NewRole) {
    role.organization == n.organization && role.deletedAt == None && Lower(role.name) == Lower(n.name)
  }

  predicate KeyTaken(roles: map<Id, Role>, n: NewRole) {
    exists r :: r in roles && SameKey(roles[r], n)
  }

  predicate NameTaken(roles: map<Id, Role>, n: NewRole) {
    exists r :: r in roles && SameName(roles[r], n)
  }

  function InsertRole(d: Database, n: NewRole, now: int): Result<Database, Error> {
    if !NotBlank(n.name) || !SystemKeyValid(RoleRow(n, now)) then Err(CheckViolation)
    else if n.id in d.roles || KeyTaken(d.roles, n) || NameTaken(d.roles, n) then Err(UniqueViolation)
    else if n.organization !in d.organizations then Err(ForeignKeyViolation)
    else Ok(d.(roles := d.roles[n.id := RoleRow(n, now)]))
  }

  function MembershipRow(n: NewMembership, now: int): Membership {
    Membership(None, Some(n.role), n.status, now, now, None)
  }

  function InsertMembership(d: Database, n: NewMembership, now: int): Result<Database, Error> {
    if (n.organization, n.user) in d.memberships then Err(UniqueViolation)
    else if n.organization !in d.organizations || n.user !in d.users then Err(ForeignKeyViolation)
    else if n.role !in d.roles || d.roles[n.role].organization != n.organization then Err(ForeignKeyViolation)
    else Ok(d.(memberships := d.memberships[(n.organization, n.user) := MembershipRow(n, now)]))
  }

  /** An organization is accepted exactly when its key is free and the schema's constraints hold with it. */
  lemma InsertOrganizationExact(d: Database, n: NewOrganization, now: int)
    requires Meets003(d)
    ensures InsertOrganization(d, n, now).Ok? <==>
            n.id !in d.organizations && Meets003(d.(organizations := d.organizations[n.id := OrganizationRow(n, now)]))
  {
    hide SystemKeyUnique;
    hide ActiveNameUnique;
    hide NotBlank;
    hide SystemKeyValid;
    var organizations := d.organizations[n.id := OrganizationRow(n, now)];
    assert n.id in organizations;
    assert RoleForeignKey(d.(organizations := organizations)) by {
      assert RoleForeignKey(d);
    }
  }

  lemma KeyTakenExact(roles: map<Id, Role>, n: NewRole, now: int)
    requires SystemKeyUnique(roles) && n.id !in roles
    ensures SystemKeyUnique(roles[n.id := RoleRow(n, now)]) <==> !KeyTaken(roles, n)
  {
    var after := roles[n.id := RoleRow(n, now)];
    forall r | r in roles && SameKey(roles[r], n) ensures !SystemKeyUnique(after) {
      assert r in after && n.id in after && after[r].systemKey == after[n.id].systemKey;
    }
  }

  lemma NameTakenExact(roles: map<Id, Role>, n: NewRole, now: int)
    requires ActiveNameUnique(roles) && n.id !in roles
    ensures ActiveNameUnique(roles[n.id := RoleRow(n, now)]) <==> !NameTaken(roles, n)
  {
    hide Lower;
    var after := roles[n.id := RoleRow(n, now)];
    forall r | r in roles && SameName(roles[r], n) ensures !ActiveNameUnique(after) {
      assert r in after && n.id in after && Lower(after[r].name) == Lower(after[n.id].name);
    }
  }

  lemma InsertRoleExact(d: Database, n: NewRole, now: int)
    requires Meets003(d)
    ensures InsertRole(d, n, now).Ok? <==>
            n.id !in d.roles && Meets003(d.(roles := d.roles[n.id := RoleRow(n, now)]))
  {
    if n.id !in d.roles {
      KeyTakenExact(d.roles, n, now);
      NameTakenExact(d.roles, n, now);
      hide SystemKeyUnique;
      hide ActiveNameUnique;
      hide KeyTaken;
      hide NameTaken;
      hide NotBlank;
      hide SystemKeyValid;
      assert n.id in d.roles[n.id := RoleRow(n, now)];
    }
  }

  lemma InsertMembershipExact(d: Database, n: NewMembership, now: int)
    requires Meets003(d)
    ensures InsertMembership(d, n, now).Ok? <==>
            (n.organization, n.user) !in d.memberships
            && Meets003(d.(memberships := d.memberships[(n.organization, n.user) := MembershipRow(n, now)]))
  {
    hide SystemKeyUnique;
    hide ActiveNameUnique;
    hide NotBlank;
    hide SystemKeyValid;
    var memberships := d.memberships[(n.organization, n.user) := MembershipRow(n, now)];
    assert (n.organization, n.user) in memberships;
  }

  // ----- the transaction -----

  /** The roles go in one by one; the first violation ends it. */
  function InsertRoles(d: Database, roles: seq<NewRole>, now: int): Result<Database, Error>
    decreases |roles|
  {
    if roles == [] then Ok(d)
    else
      match InsertRoles(d, roles[..|roles| - 1], now)
      case Err(error) => Err(error)
      case Ok(mid) => InsertRole(mid, roles[|roles| - 1], now)
  }

  function Creation(
    d: Database, n: NewOrganization, roles: seq<NewRole>, m: NewMembership, now: int): Result<Database, Error>
  {
    match InsertOrganization(d, n, now)
    case Err(error) => Err(error)
    case Ok(first) =>
      match InsertRoles(first, roles, now)
      case Err(error) => Err(error)
      case Ok(second) => InsertMembership(second, m, now)
  }

  lemma {:induction false} InsertRolesKeeps(d: Database, roles: seq<NewRole>, now: int)
    requires Meets003(d) && InsertRoles(d, roles, now).Ok?
    ensures Meets003(InsertRoles(d, roles, now).value)
    decreases |roles|
  {
    if roles != [] {
      InsertRolesKeeps(d, roles[..|roles| - 1], now);
      InsertRoleExact(InsertRoles(d, roles[..|roles| - 1], now).value, roles[|roles| - 1], now);
      hide Meets003;
    }
  }

  /** A committed creation leaves every constraint of the schema holding. */
  lemma CreationKeeps(d: Database, n: NewOrganization, roles: seq<NewRole>, m: NewMembership, now: int)
    requires Meets003(d) && Creation(d, n, roles, m, now).Ok?
    ensures Meets003(Creation(d, n, roles, m, now).value)
  {
    InsertOrganizationExact(d, n, now);
    var first := InsertOrganization(d, n, now).value;
    InsertRolesKeeps(first, roles, now);
    var second := InsertRoles(first, roles, now).value;
    InsertMembershipExact(second, m, now);
    hide Meets003;
    hide InsertRoles;
  }

  /** `after` holds the inserted roles, live and dated `now`, besides the rows there were. */
  ghost predicate RolesAdded(before: map<Id, Role>, after: map<Id, Role>, roles: seq<NewRole>, now: int) {
    && (forall r :: r in before ==> r in after && after[r] == before[r])
    && (forall i :: 0 <= i < |roles| ==>
          && roles[i].id !in before && roles[i].id in after
          && after[roles[i].id] == Role(roles[i].organization, roles[i].name, roles[i].systemKey, now, now, None))
    && (forall r :: r in after ==> r in before || exists i :: 0 <= i < |roles| && roles[i].id == r)
  }

  lemma RoleAdded(before: map<Id, Role>, mid: map<Id, Role>, init: seq<NewRole>, n: NewRole, now: int)
    requires RolesAdded(before, mid, init, now) && n.id !in mid
    ensures RolesAdded(before, mid[n.id := Role(n.organization, n.name, n.systemKey, now, now, None)], init + [n], now)
  {
    var after, roles := mid[n.id := Role(n.organization, n.name, n.systemKey, now, now, None)], init + [n];
    forall r | r in after && r !in before ensures exists i :: 0 <= i < |roles| && roles[i].id == r {
      if r == n.id {
        assert roles[|init|].id == r;
      } else {
        var i :| 0 <= i < |init| && init[i].id == r;
        assert roles[i].id == r;
      }
    }
  }

  lemma {:induction false} RolesColumns(d: Database, roles: seq<NewRole>, now: int)
    requires InsertRoles(d, roles, now).Ok?
    ensures var after := InsertRoles(d, roles, now).value;
            RolesAdded(d.roles, after.roles, roles, now) && after == d.(roles := after.roles)
    decreases |roles|
  {
    if roles != [] {
      var init, n := roles[..|roles| - 1], roles[|roles| - 1];
      RolesColumns(d, init, now);
      var mid := InsertRoles(d, init, now).value;
      assert roles == init + [n];
      RoleAdded(d.roles, mid.roles, init, n, now);
      hide RolesAdded;
      hide KeyTaken;
      hide NameTaken;
      hide NotBlank;
    }
  }

  /** A committed creation adds the organization, its roles and the membership by their columns, and nothing else. */
  lemma CreationColumns(d: Database, n: NewOrganization, roles: seq<NewRole>, m: NewMembership, now: int)
    requires Creation(d, n, roles, m, now).Ok?
    ensures
      var after := Creation(d, n, roles, m, now).value;
      && after.users == d.users
      && after.organizations == d.organizations[n.id := Organization(n.name, now, now, Some(n.owner), None, None)]
      && after.memberships ==
         d.memberships[(m.organization, m.user) := Membership(None, Some(m.role), m.status, now, now, None)]
      && RolesAdded(d.roles, after.roles, roles, now)
  {
    var first := InsertOrganization(d, n, now).value;
    RolesColumns(first, roles, now);
    hide RolesAdded;
    hide InsertRoles;
  }

  // ----- what the service asks for -----

  function BuiltIns(organization: Id, admin: Id, developer: Id): seq<NewRole> {
    [NewRole(admin, organization, "Admin", Some(Admin)), NewRole(developer, organization, "Developer", Some(Developer))]
  }

  /** `name` is the trimmed name; the other arguments are the identifiers drawn. */
  function ServiceCreation(
    d: Database, id: Id, owner: Id, name: string, admin: Id, developer: Id, now: int): Result<Database, Error>
  {
    Creation(
      d, NewOrganization(id, owner, name), BuiltIns(id, admin, developer), NewMembership(id, owner, admin, Active), now)
  }

  function Created(d: Database, id: Id, owner: Id, name: string, admin: Id, developer: Id, now: int): Database {
    d.(
      organizations := d.organizations[id := Organization(name, now, now, Some(owner), None, None)],
      roles := d.roles[admin := Role(id, "Admin", Some(Admin), now, now, None)]
                      [developer := Role(id, "Developer", Some(Developer), now, now, None)],
      memberships := d.memberships[(id, owner) := Membership(None, Some(admin), Active, now, now, None)])
  }

  predicate Fresh(d: Database, id: Id, admin: Id, developer: Id) {
    id !in d.organizations && admin !in d.roles && developer !in d.roles && admin != developer
  }

  /** Both built-in roles go in exactly when their identifiers are new and differ. */
  lemma BuiltInsInserted(d: Database, id: Id, admin: Id, developer: Id, now: int)
    requires id in d.organizations && forall r :: r in d.roles ==> d.roles[r].organization != id
    ensures InsertRoles(d, BuiltIns(id, admin, developer), now)
            == if admin in d.roles || developer in d.roles || admin == developer then Err(UniqueViolation)
               else Ok(d.(roles := d.roles[admin := Role(id, "Admin", Some(Admin), now, now, None)]
                                          [developer := Role(id, "Developer", Some(Developer), now, now, None)]))
  {
    BuiltInNames();
    NamesDiffer();
    hide NotBlank;
    hide Lower;
    var roles := BuiltIns(id, admin, developer);
    assert roles[..1] == [roles[0]] && roles[..1][..0] == [];
    assert InsertRoles(d, roles[..1], now) == InsertRole(d, roles[0], now);
    assert InsertRole(d, roles[0], now) == if admin in d.roles then Err(UniqueViolation)
      else Ok(d.(roles := d.roles[admin := Role(id, "Admin", Some(Admin), now, now, None)]));
    if admin !in d.roles {
      var mid := d.(roles := d.roles[admin := Role(id, "Admin", Some(Admin), now, now, None)]);
      assert InsertRoles(d, roles, now) == InsertRole(mid, roles[1], now);
      assert !KeyTaken(mid.roles, roles[1]) && !NameTaken(mid.roles, roles[1]);
    }
  }

  lemma BuiltInNames()
    ensures NotBlank("Admin") && NotBlank("Developer")
  {
    assert "Admin"[0] != ' ' && "Developer"[0] != ' ';
  }

  /** The service's creation commits exactly when its identifiers are new, its owner exists and its name is not blank. */
  lemma ServiceCreationExact(d: Database, id: Id, owner: Id, name: string, admin: Id, developer: Id, now: int)
    requires Meets003(d)
    ensures ServiceCreation(d, id, owner, name, admin, developer, now).Ok? <==>
            && (exists i :: 0 <= i < |name| && name[i] != ' ') && owner in d.users
            && id !in d.organizations && admin !in d.roles && developer !in d.roles && admin != developer
    ensures ServiceCreation(d, id, owner, name, admin, developer, now).Ok? ==>
              ServiceCreation(d, id, owner, name, admin, developer, now)
              == Ok(Created(d, id, owner, name, admin, developer, now))
  {
    if NotBlank(name) && owner in d.users && id !in d.organizations {
      assert forall r :: r in d.roles ==> d.roles[r].organization != id;
      assert (id, owner) !in d.memberships;
      hide Meets003;
      hide InsertRoles;
      hide NotBlank;
      var first := InsertOrganization(d, NewOrganization(id, owner, name), now).value;
      BuiltInsInserted(first, id, admin, developer, now);
    }
  }

  // ----- what a committed creation does to active access -----

  /** Exactly one access is granted that was not: the owner's, of the new organization; the others read as before. */
  lemma GrantedAfter(d: Database, id: Id, owner: Id, name: string, admin: Id, developer: Id, now: int, user: Id, o: Id)
    requires Meets003(d) && Fresh(d, id, admin, developer)
    ensures var e := Created(d, id, owner, name, admin, developer, now);
            && (Granted(e, user, o) <==> Granted(d, user, o) || (user == owner && o == id))
            && (Granted(d, user, o) ==> o != id && AccessOf(e, user, o) == AccessOf(d, user, o))
            && (user == owner && o == id ==> AccessOf(e, user, o) == Access(id, name, true, admin, "Admin", Some(Admin)))
  {
  }

  /** Nobody else's list changes. */
  lemma OthersKeepTheirList(
    d: Database, id: Id, owner: Id, name: string, admin: Id, developer: Id, now: int, user: Id, entries: seq<Access>)
    requires Meets003(d) && Fresh(d, id, admin, developer) && user != owner
    ensures IsAccessList(d, user, entries) <==>
            IsAccessList(Created(d, id, owner, name, admin, developer, now), user, entries)
  {
    var e := Created(d, id, owner, name, admin, developer, now);
    forall o
      ensures Granted(d, user, o) <==> Granted(e, user, o)
      ensures Granted(d, user, o) ==> o != id && AccessOf(e, user, o) == AccessOf(d, user, o)
    {
      GrantedAfter(d, id, owner, name, admin, developer, now, user, o);
    }
    SameOrder(d, e, id);
    hide Meets003;
    hide Fresh;
    hide Created;
    hide AccessOf;
    hide Earlier;
  }

  predicate SameOrderExcept(d: Database, e: Database, id: Id) {
    forall o, p :: o in d.organizations && p in d.organizations && o != id && p != id ==>
      o in e.organizations && p in e.organizations && Earlier(d, o, p) == Earlier(e, o, p)
  }

  lemma SameOrder(d: Database, e: Database, id: Id)
    requires forall o :: o in d.organizations && o != id ==> o in e.organizations && e.organizations[o] == d.organizations[o]
    ensures SameOrderExcept(d, e, id)
  {
  }

  /** The owner's list gains one entry, flagged as owned, and is otherwise as it was. */
  lemma OwnerGainsOneEntry(
    d: Database, id: Id, owner: Id, name: string, admin: Id, developer: Id, now: int, before: seq<Access>)
    returns (p: nat, after: seq<Access>)
    requires Meets003(d) && Fresh(d, id, admin, developer)
    requires IsAccessList(d, owner, before)
    ensures p <= |before|
    ensures after == before[..p] + [Access(id, name, true, admin, "Admin", Some(Admin))] + before[p..]
    ensures IsAccessList(Created(d, id, owner, name, admin, developer, now), owner, after)
    ensures (forall o :: o in d.organizations ==> d.organizations[o].createdAt < now) ==> p == |before|
  {
    after := AccessListExists(Created(d, id, owner, name, admin, developer, now), owner);
    p := EntryAdded(d, id, owner, name, admin, developer, now, before, after);
    if forall o :: o in d.organizations ==> d.organizations[o].createdAt < now {
      NewestIsLast(Created(d, id, owner, name, admin, developer, now), id, owner, after, p);
    }
  }

  /** An organization newer than all others is listed last. */
  lemma NewestIsLast(d: Database, id: Id, user: Id, entries: seq<Access>, p: nat)
    requires IsAccessList(d, user, entries) && p < |entries| && entries[p].organization == id && id in d.organizations
    requires forall o :: o in d.organizations && o != id ==> d.organizations[o].createdAt < d.organizations[id].createdAt
    ensures p == |entries| - 1
  {
    AccessListColumns(d, user, entries);
    hide IsAccessList;
    var last := |entries| - 1;
    assert p == last || entries[last].organization in d.organizations;
  }

  lemma EntryAdded(
    d: Database, id: Id, owner: Id, name: string, admin: Id, developer: Id, now: int,
    before: seq<Access>, after: seq<Access>)
    returns (p: nat)
    requires Meets003(d) && Fresh(d, id, admin, developer)
    requires IsAccessList(d, owner, before)
    requires IsAccessList(Created(d, id, owner, name, admin, developer, now), owner, after)
    ensures p <= |before|
    ensures after == before[..p] + [Access(id, name, true, admin, "Admin", Some(Admin))] + before[p..]
  {
    var e := Created(d, id, owner, name, admin, developer, now);
    forall o
      ensures Granted(e, owner, o) <==> Granted(d, owner, o) || o == id
      ensures Granted(d, owner, o) ==> o != id && AccessOf(e, owner, o) == AccessOf(d, owner, o)
      ensures o == id ==> AccessOf(e, owner, o) == Access(id, name, true, admin, "Admin", Some(Admin))
    {
      GrantedAfter(d, id, owner, name, admin, developer, now, owner, o);
    }
    SameOrder(d, e, id);
    hide Meets003;
    hide Fresh;
    hide Created;
    hide AccessOf;
    hide Earlier;
    p := EntryOf(e, owner, after, id);
    RestIsList(d, e, id, owner, after, p);
    hide *;
    var rest := after[..p] + after[p + 1..];
    AccessListUnique(d, owner, before, rest);
    assert after == rest[..p] + [after[p]] + rest[p..];
  }

  lemma EntryOf(d: Database, user: Id, entries: seq<Access>, o: Id) returns (p: nat)
    requires IsAccessList(d, user, entries) && Granted(d, user, o)
    ensures p < |entries| && entries[p].organization == o && entries[p] == AccessOf(d, user, o)
  {
    var i :| 0 <= i < |entries| && entries[i].organization == o;
    p := i;
  }

  lemma RestIsList(d: Database, e: Database, id: Id, owner: Id, after: seq<Access>, p: nat)
    requires forall o :: Granted(e, owner, o) <==> Granted(d, owner, o) || o == id
    requires forall o :: Granted(d, owner, o) ==> o != id && AccessOf(e, owner, o) == AccessOf(d, owner, o)
    requires SameOrderExcept(d, e, id)
    requires IsAccessList(e, owner, after) && p < |after| && after[p].organization == id
    ensures IsAccessList(d, owner, after[..p] + after[p + 1..])
  {
    var rest := after[..p] + after[p + 1..];
    hide AccessOf;
    forall i | 0 <= i < |after| && i != p ensures after[i].organization != id {
      assert i < p ==> Earlier(e, after[i].organization, after[p].organization);
      assert p < i ==> Earlier(e, after[p].organization, after[i].organization);
    }
    hide Earlier;
    forall o | Granted(d, owner, o) ensures exists i :: 0 <= i < |rest| && rest[i].organization == o {
      var i :| 0 <= i < |after| && after[i].organization == o;
      assert rest[if i < p then i else i - 1].organization == o;
    }
  }
}
