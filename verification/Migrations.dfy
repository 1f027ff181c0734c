/** The data migrations that extract organization owners (002) and introduce role rows (003), up and down. */
module Migrations {
  import opened Wrappers

  /** A UUID. */
  type Id = int

  /** The role texts and system keys the constraints admit, in some version of the schema. */
  datatype RoleName = Owner | Admin | Developer | Finance | CustomerSupport

  /** The texts `organization_memberships_status_valid` admits. */
  datatype Status = Active | Suspended

  /** A column the schema does not have yet, or no longer, is `None`, as is a null. */
  datatype Organization = Organization(
    name: string, createdAt: int, updatedAt: int, owner: Option<Id>, deletedAt: Option<int>, suspendedAt: Option<int>)

  datatype Membership = Membership(
    role: Option<RoleName>, roleId: Option<Id>, status: Status, createdAt: int, updatedAt: int, removedAt: Option<int>)

  datatype Role = Role(
    organization: Id, name: string, systemKey: Option<RoleName>, createdAt: int, updatedAt: int, deletedAt: Option<int>)

  /** Memberships are keyed by (organization, user). */
  datatype Database = Database(
    users: set<Id>, organizations: map<Id, Organization>, memberships: map<(Id, Id), Membership>, roles: map<Id, Role>)

  /** `length(btrim(name)) > 0` */
  predicate NotBlank(name: string) { exists i :: 0 <= i < |name| && name[i] != ' ' }

  predicate ForeignKeys(d: Database) {
    forall k :: k in d.memberships ==> k.0 in d.organizations && k.1 in d.users
  }

  // ----- what each schema version's constraints demand -----

  predicate Meets001(d: Database) {
    && ForeignKeys(d) && d.roles == map[]
    && (forall o :: o in d.organizations ==>
          && d.organizations[o].owner == None
          && d.organizations[o].deletedAt == None && d.organizations[o].suspendedAt == None
          && NotBlank(d.organizations[o].name))
    && (forall k :: k in d.memberships ==>
          && d.memberships[k].roleId == None && d.memberships[k].removedAt == None
          && d.memberships[k].role.Some? && d.memberships[k].role != Some(Admin))
  }

  predicate Meets002(d: Database) {
    && ForeignKeys(d) && d.roles == map[]
    && (forall o :: o in d.organizations ==>
          d.organizations[o].owner.Some? && d.organizations[o].owner.value in d.users && NotBlank(d.organizations[o].name))
    && (forall k :: k in d.memberships ==>
          && d.memberships[k].roleId == None
          && (d.memberships[k].role == Some(Admin) || d.memberships[k].role == Some(Developer)))
  }

  function LowerChar(c: char): char { if 'A' <= c <= 'Z' then (c as int + 32) as char else c }

  function Lower(s: string): string { seq(|s|, i requires 0 <= i < |s| => LowerChar(s[i])) }

  /** At most one role per organization and system key. */
  predicate SystemKeyUnique(roles: map<Id, Role>) {
    forall r, q :: r in roles && q in roles && r != q && roles[r].organization == roles[q].organization
      ==> roles[r].systemKey == None || roles[r].systemKey != roles[q].systemKey
  }

  /** At most one live role per organization and case-folded name. */
  predicate ActiveNameUnique(roles: map<Id, Role>) {
    forall r, q :: r in roles && q in roles && r != q && roles[r].organization == roles[q].organization
      ==> roles[r].deletedAt.Some? || roles[q].deletedAt.Some? || Lower(roles[r].name) != Lower(roles[q].name)
  }

  predicate SystemKeyValid(role: Role) {
    role.systemKey.Some? ==> role.systemKey.value == Admin || role.systemKey.value == Developer
  }

  /** A membership's role is a role of the membership's own organization. */
  predicate RoleForeignKey(d: Database) {
    forall k :: k in d.memberships ==>
      && d.memberships[k].roleId.Some? && d.memberships[k].roleId.value in d.roles
      && d.roles[d.memberships[k].roleId.value].organization == k.0
  }

  predicate Meets003(d: Database) {
    && ForeignKeys(d)
    && (forall o :: o in d.organizations ==>
          d.organizations[o].owner.Some? && d.organizations[o].owner.value in d.users && NotBlank(d.organizations[o].name))
    && (forall k :: k in d.memberships ==> d.memberships[k].role == None)
    && (forall r :: r in d.roles ==>
          d.roles[r].organization in d.organizations && SystemKeyValid(d.roles[r]) && NotBlank(d.roles[r].name))
    && SystemKeyUnique(d.roles) && ActiveNameUnique(d.roles) && RoleForeignKey(d)
  }

  // ----- what each migration makes of the data -----

  function Owners(d: Database, o: Id): set<Id> {
    set k | k in d.memberships && k.0 == o && d.memberships[k].role == Some(Owner) :: k.1
  }

  /** Each organization's owner becomes one of the users who held the owner role, and that role becomes admin. */
  ghost predicate Up002Data(d: Database, e: Database) {
    && e.users == d.users && e.roles == d.roles
    && e.organizations.Keys == d.organizations.Keys && e.memberships.Keys == d.memberships.Keys
    && (forall o :: o in d.organizations ==>
          && e.organizations[o].owner.Some? && e.organizations[o].owner.value in Owners(d, o)
          && e.organizations[o] == d.organizations[o].(owner := e.organizations[o].owner))
    && (forall k :: k in d.memberships ==>
          e.memberships[k] ==
          if d.memberships[k].role == Some(Owner) then d.memberships[k].(role := Some(Admin)) else d.memberships[k])
  }

  /** The user an organization is owned by gets the owner role back; every other membership becomes developer. */
  ghost predicate Down002Data(d: Database, e: Database) {
    && e.users == d.users && e.roles == d.roles
    && e.organizations.Keys == d.organizations.Keys && e.memberships.Keys == d.memberships.Keys
    && (forall o :: o in d.organizations ==>
          e.organizations[o] == d.organizations[o].(owner := None, deletedAt := None, suspendedAt := None))
    && (forall k :: k in d.memberships ==>
          e.memberships[k] == d.memberships[k].(
            removedAt := None,
            role := if k.0 in d.organizations && d.organizations[k.0].owner == Some(k.1) then Some(Owner)
                    else Some(Developer)))
  }

  /** `digest(o, key)` stands for the UUID read off the MD5 of organization `o`'s text and the key's. */
  type Digest = (Id, RoleName) -> Id

  function KeyOf(role: Option<RoleName>): RoleName { if role == Some(Admin) then Admin else Developer }

  /** Every organization gets its two built-in roles, and there are no others. */
  ghost predicate BuiltInRoles(digest: Digest, now: int, d: Database, roles: map<Id, Role>) {
    && (forall r :: r in roles ==>
          && roles[r].organization in d.organizations
          && (r == digest(roles[r].organization, Admin) || r == digest(roles[r].organization, Developer)))
    && (forall o :: o in d.organizations ==>
          && digest(o, Admin) in roles && digest(o, Developer) in roles
          && roles[digest(o, Admin)] == Role(o, "Admin", Some(Admin), now, now, None)
          && roles[digest(o, Developer)] == Role(o, "Developer", Some(Developer), now, now, None))
  }

  /** Every membership gets the built-in role its role text named, in place of the text. */
  ghost predicate Up003Data(digest: Digest, now: int, d: Database, e: Database) {
    && e.users == d.users && e.organizations == d.organizations && e.memberships.Keys == d.memberships.Keys
    && BuiltInRoles(digest, now, d, e.roles)
    && (forall k :: k in d.memberships ==>
          e.memberships[k] == d.memberships[k].(role := None, roleId := Some(digest(k.0, KeyOf(d.memberships[k].role)))))
  }

  /** A membership's role text becomes its role's system key, or developer for a custom role. */
  ghost predicate Down003Data(d: Database, e: Database) {
    && e.users == d.users && e.organizations == d.organizations && e.memberships.Keys == d.memberships.Keys
    && e.roles == map[]
    && (forall k :: k in d.memberships ==>
          && d.memberships[k].roleId.Some? && d.memberships[k].roleId.value in d.roles
          && var key := d.roles[d.memberships[k].roleId.value].systemKey;
             e.memberships[k] == d.memberships[k].(roleId := None, role := if key.Some? then key else Some(Developer)))
  }

  // ----- the statements -----

  type Memberships = map<(Id, Id), Membership>
  type Organizations = map<Id, Organization>

  /** `UPDATE organizations SET owner_user_id = ... FROM organization_memberships`; `pick` is the joined row taken. */
  function ExtractOwners(d: Database, pick: map<Id, Id>): Organizations
    requires forall o :: o in d.organizations && Owners(d, o) != {} ==> o in pick
  {
    map o | o in d.organizations ::
      if Owners(d, o) != {} then d.organizations[o].(owner := Some(pick[o])) else d.organizations[o]
  }

  /** `UPDATE organization_memberships SET role = to WHERE role = from` */
  function RenameRole(memberships: Memberships, from: RoleName, to: RoleName): Memberships {
    map k | k in memberships ::
      if memberships[k].role == Some(from) then memberships[k].(role := Some(to)) else memberships[k]
  }

  /** `ALTER TABLE organization_memberships DROP COLUMN removed_at` */
  function DropRemovedAt(memberships: Memberships): Memberships {
    map k | k in memberships :: memberships[k].(removedAt := None)
  }

  /** `UPDATE organization_memberships SET role = 'owner' FROM organizations` */
  function RestoreOwners(memberships: Memberships, organizations: Organizations): Memberships {
    map k | k in memberships ::
      if k.0 in organizations && organizations[k.0].owner == Some(k.1) then memberships[k].(role := Some(Owner))
      else memberships[k]
  }

  function DropLifecycle(organizations: Organizations): Organizations {
    map o | o in organizations :: organizations[o].(suspendedAt := None, deletedAt := None)
  }

  function DropOwners(organizations: Organizations): Organizations {
    map o | o in organizations :: organizations[o].(owner := None)
  }

  /** The rows inserted for one built-in role of every organization. */
  function RolesFor(digest: Digest, organizations: set<Id>, key: RoleName, name: string, now: int): map<Id, Role>
    requires forall o, p :: o in organizations && p in organizations && o != p ==> digest(o, key) != digest(p, key)
  {
    map o | o in organizations :: digest(o, key) := Role(o, name, Some(key), now, now, None)
  }

  predicate Joins(roles: map<Id, Role>, o: Id, key: RoleName, r: Id) {
    r in roles && roles[r].organization == o && roles[r].systemKey == Some(key)
  }

  /** The role a join on organization and system key finds: the unique index leaves it no choice. */
  function JoinedRole(roles: map<Id, Role>, o: Id, key: RoleName): Option<Id>
    requires SystemKeyUnique(roles)
  {
    if exists r :: r in roles && Joins(roles, o, key, r) then
      var r :| r in roles && Joins(roles, o, key, r);
      Some(r)
    else None
  }

  /** `SET role_id = organization_roles.id` joined on the organization and the key the role text stands for. */
  function AssignRoles(memberships: Memberships, roles: map<Id, Role>): Memberships
    requires SystemKeyUnique(roles)
  {
    map k | k in memberships :: memberships[k].(roleId := JoinedRole(roles, k.0, KeyOf(memberships[k].role)))
  }

  function DropRole(memberships: Memberships): Memberships {
    map k | k in memberships :: memberships[k].(role := None)
  }

  /** `SET role = COALESCE(system_key, 'developer')`; a membership that joins no role keeps a null. */
  function NameRoles(memberships: Memberships, roles: map<Id, Role>): Memberships {
    map k | k in memberships ::
      if memberships[k].roleId.Some? && memberships[k].roleId.value in roles
      then memberships[k].(role := Some(if roles[memberships[k].roleId.value].systemKey.Some?
                                        then roles[memberships[k].roleId.value].systemKey.value else Developer))
      else memberships[k]
  }

  function DropRoleId(memberships: Memberships): Memberships {
    map k | k in memberships :: memberships[k].(roleId := None)
  }

  // ----- the migrations as they run -----

  datatype Error = NotNullViolation | ForeignKeyViolation | CheckViolation | UniqueViolation

  /** Every organization has an owner membership, and no membership has a role 002 abolishes. */
  predicate Upgradable(d: Database) {
    && (forall o :: o in d.organizations ==> Owners(d, o) != {})
    && (forall k :: k in d.memberships ==> d.memberships[k].role == Some(Owner) || d.memberships[k].role == Some(Developer))
  }

  /** No two built-in roles collide. */
  ghost predicate DigestsDiffer(digest: Digest, organizations: set<Id>) {
    && (forall o, p :: o in organizations && p in organizations && o != p ==> digest(o, Admin) != digest(p, Admin))
    && (forall o, p :: o in organizations && p in organizations && o != p ==> digest(o, Developer) != digest(p, Developer))
    && (forall o, p :: o in organizations && p in organizations ==> digest(o, Admin) != digest(p, Developer))
  }

  lemma UpgradableColumns(d: Database)
    ensures Upgradable(d) <==>
            && (forall o :: o in d.organizations ==>
                  exists k :: k in d.memberships && k.0 == o && d.memberships[k].role == Some(Owner))
            && (forall k :: k in d.memberships ==>
                  d.memberships[k].role == Some(Owner) || d.memberships[k].role == Some(Developer))
  {
    forall o
      ensures Owners(d, o) != {} <==> exists k :: k in d.memberships && k.0 == o && d.memberships[k].role == Some(Owner)
    {
      if k :| k in d.memberships && k.0 == o && d.memberships[k].role == Some(Owner) {
        assert k.1 in Owners(d, o);
      } else {
        assert Owners(d, o) == {};
      }
    }
    hide Owners;
  }

  /** The built-in identifiers differ as long as no two inputs of the digest collide. */
  lemma DigestsColumns(digest: Digest, organizations: set<Id>)
    ensures DigestsDiffer(digest, organizations) <==>
            forall o, p, a, b :: o in organizations && p in organizations
              && (a == Admin || a == Developer) && (b == Admin || b == Developer) && digest(o, a) == digest(p, b)
              ==> o == p && a == b
  {
  }

  lemma Up002Meets(d: Database, e: Database)
    requires Meets001(d) && Upgradable(d) && Up002Data(d, e)
    ensures Meets002(e)
  {
    hide NotBlank;
    forall o | o in e.organizations ensures e.organizations[o].owner.Some? && e.organizations[o].owner.value in e.users {
      assert e.organizations[o].owner.value in Owners(d, o);
    }
    hide Owners;
  }

  lemma Down002Meets(d: Database, e: Database)
    requires Meets002(d) && Down002Data(d, e)
    ensures Meets001(e)
  {
    hide NotBlank;
  }

  lemma Down003Meets(d: Database, e: Database)
    requires Meets003(d) && Down003Data(d, e)
    ensures Meets002(e)
  {
    hide NotBlank;
    hide SystemKeyUnique;
    hide ActiveNameUnique;
    forall k | k in e.memberships ensures e.memberships[k].role == Some(Admin) || e.memberships[k].role == Some(Developer) {
      var r := d.memberships[k].roleId.value;
      assert k in d.memberships && r in d.roles && SystemKeyValid(d.roles[r]);
    }
  }

  /** Every role 003 leaves is the Admin or the Developer role of its organization. */
  lemma BuiltInRole(digest: Digest, now: int, d: Database, roles: map<Id, Role>, r: Id)
    requires BuiltInRoles(digest, now, d, roles) && r in roles
    ensures roles[r].organization in d.organizations
    ensures var o := roles[r].organization;
            || (r == digest(o, Admin) && roles[r] == Role(o, "Admin", Some(Admin), now, now, None))
            || (r == digest(o, Developer) && roles[r] == Role(o, "Developer", Some(Developer), now, now, None))
  {
  }

  lemma NamesDiffer()
    ensures Lower("Admin") != Lower("Developer")
  {
    assert Lower("Admin")[0] == 'a' && Lower("Developer")[0] == 'd';
  }

  /** Both unique indexes hold of the rows 003 inserts. */
  lemma UniqueIndexes(digest: Digest, now: int, d: Database, roles: map<Id, Role>)
    requires BuiltInRoles(digest, now, d, roles)
    ensures SystemKeyUnique(roles) && ActiveNameUnique(roles)
  {
    NamesDiffer();
    hide Lower;
    hide BuiltInRoles;
    forall r, q | r in roles && q in roles && r != q && roles[r].organization == roles[q].organization
      ensures roles[r].systemKey != roles[q].systemKey && Lower(roles[r].name) != Lower(roles[q].name)
    {
      BuiltInRole(digest, now, d, roles, r);
      BuiltInRole(digest, now, d, roles, q);
    }
  }

  /** The join finds each membership the built-in role of its own organization. */
  lemma JoinsBuiltIn(digest: Digest, now: int, d: Database, roles: map<Id, Role>, o: Id, key: RoleName)
    requires BuiltInRoles(digest, now, d, roles) && SystemKeyUnique(roles)
    requires o in d.organizations && (key == Admin || key == Developer)
    ensures Joins(roles, o, key, digest(o, key)) && JoinedRole(roles, o, key) == Some(digest(o, key))
  {
    assert Joins(roles, o, key, digest(o, key));
    hide BuiltInRoles;
  }

  lemma AssignedRoles(digest: Digest, now: int, d: Database, e: Database)
    requires Meets002(d) && BuiltInRoles(digest, now, d, e.roles) && SystemKeyUnique(e.roles)
    requires e == d.(roles := e.roles, memberships := DropRole(AssignRoles(d.memberships, e.roles)))
    ensures Up003Data(digest, now, d, e)
  {
    hide BuiltInRoles;
    hide SystemKeyUnique;
    hide JoinedRole;
    hide Joins;
    forall k | k in d.memberships
      ensures JoinedRole(e.roles, k.0, KeyOf(d.memberships[k].role)) == Some(digest(k.0, KeyOf(d.memberships[k].role)))
    {
      JoinsBuiltIn(digest, now, d, e.roles, k.0, KeyOf(d.memberships[k].role));
    }
  }

  lemma RolesReferenced(digest: Digest, now: int, d: Database, e: Database)
    requires Meets002(d) && Up003Data(digest, now, d, e) && SystemKeyUnique(e.roles)
    ensures RoleForeignKey(e)
  {
    hide BuiltInRoles;
    hide SystemKeyUnique;
    hide JoinedRole;
    forall k | k in e.memberships
      ensures e.memberships[k].roleId.Some?
      ensures Joins(e.roles, k.0, KeyOf(d.memberships[k].role), e.memberships[k].roleId.value)
    {
      JoinsBuiltIn(digest, now, d, e.roles, k.0, KeyOf(d.memberships[k].role));
    }
  }

  /** The composite foreign key and both unique indexes hold of what 003 leaves. */
  lemma Up003Meets(digest: Digest, now: int, d: Database, e: Database)
    requires Meets002(d) && Up003Data(digest, now, d, e)
    ensures Meets003(e)
  {
    assert "Admin"[0] != ' ' && "Developer"[0] != ' ';
    assert NotBlank("Admin") && NotBlank("Developer");
    hide NotBlank;
    UniqueIndexes(digest, now, d, e.roles);
    RolesReferenced(digest, now, d, e);
    hide SystemKeyUnique;
    hide ActiveNameUnique;
    hide RoleForeignKey;
    hide BuiltInRoles;
    forall r | r in e.roles
      ensures e.roles[r].organization in e.organizations && SystemKeyValid(e.roles[r]) && NotBlank(e.roles[r].name)
    {
      BuiltInRole(digest, now, d, e.roles, r);
    }
  }

  lemma Backfilled(digest: Digest, now: int, d: Database, e: Database)
    requires Meets002(d) && BuiltInRoles(digest, now, d, e.roles) && SystemKeyUnique(e.roles)
    requires e == d.(roles := e.roles, memberships := DropRole(AssignRoles(d.memberships, e.roles)))
    ensures Up003Data(digest, now, d, e) && Meets003(e)
  {
    hide *;
    AssignedRoles(digest, now, d, e);
    Up003Meets(digest, now, d, e);
  }

  /** One batch holds exactly its role of every organization. */
  lemma BatchInserted(digest: Digest, organizations: set<Id>, key: RoleName, name: string, now: int, batch: map<Id, Role>)
    requires forall o, p :: o in organizations && p in organizations && o != p ==> digest(o, key) != digest(p, key)
    requires batch == RolesFor(digest, organizations, key, name, now)
    ensures forall r :: r in batch ==> batch[r].organization in organizations && r == digest(batch[r].organization, key)
    ensures forall o :: o in organizations ==>
              digest(o, key) in batch && batch[digest(o, key)] == Role(o, name, Some(key), now, now, None)
  {
  }

  /** With distinct identifiers the two batches are the built-in roles and nothing else. */
  lemma RolesInserted(digest: Digest, now: int, d: Database, admins: map<Id, Role>, developers: map<Id, Role>)
    requires DigestsDiffer(digest, d.organizations.Keys)
    requires admins == RolesFor(digest, d.organizations.Keys, Admin, "Admin", now)
    requires developers == RolesFor(digest, d.organizations.Keys, Developer, "Developer", now)
    ensures BuiltInRoles(digest, now, d, admins + developers)
  {
    BatchInserted(digest, d.organizations.Keys, Admin, "Admin", now, admins);
    BatchInserted(digest, d.organizations.Keys, Developer, "Developer", now, developers);
    hide RolesFor;
    forall o, r | o in d.organizations && r in developers ensures r != digest(o, Admin) {
      assert r == digest(developers[r].organization, Developer);
    }
    hide DigestsDiffer;
  }

  lemma OwnersExtracted(d: Database, e: Database, pick: map<Id, Id>)
    requires Meets001(d) && Upgradable(d)
    requires forall o :: o in d.organizations ==> o in pick && pick[o] in Owners(d, o)
    requires e == d.(organizations := ExtractOwners(d, pick), memberships := RenameRole(d.memberships, Owner, Admin))
    ensures Up002Data(d, e) && Meets002(e)
  {
    assert Up002Data(d, e);
    hide ExtractOwners;
    hide RenameRole;
    Up002Meets(d, e);
  }

  /** The role texts version 002 admits. */
  predicate RoleValid(membership: Membership) {
    membership.role == Some(Admin) || membership.role == Some(Developer)
  }

  /** The new role constraint holds after the rename exactly when there was no role 002 abolishes. */
  lemma RenamedRolesValid(memberships: Memberships)
    ensures (forall k :: k in memberships ==> memberships[k].role == Some(Owner) || RoleValid(memberships[k]))
            <==> (forall k :: k in RenameRole(memberships, Owner, Admin) ==>
                    RoleValid(RenameRole(memberships, Owner, Admin)[k]))
  {
    var renamed := RenameRole(memberships, Owner, Admin);
    if forall k :: k in renamed ==> RoleValid(renamed[k]) {
      forall k | k in memberships ensures memberships[k].role == Some(Owner) || RoleValid(memberships[k]) {
        assert k in renamed;
      }
    }
  }

  lemma OwnersRestored(d: Database, e: Database)
    requires Meets002(d)
    requires e == d.(
      organizations := DropOwners(DropLifecycle(d.organizations)),
      memberships := RestoreOwners(RenameRole(DropRemovedAt(d.memberships), Admin, Developer),
                                   DropLifecycle(d.organizations)))
    ensures Down002Data(d, e) && Meets001(e)
  {
    assert Down002Data(d, e);
    hide DropOwners;
    hide DropLifecycle;
    hide RestoreOwners;
    hide RenameRole;
    hide DropRemovedAt;
    Down002Meets(d, e);
  }

  lemma BatchesApart(digest: Digest, organizations: set<Id>)
    requires DigestsDiffer(digest, organizations)
    ensures forall o, p :: o in organizations && p in organizations && o != p ==> digest(o, Admin) != digest(p, Admin)
    ensures forall o, p :: o in organizations && p in organizations && o != p ==> digest(o, Developer) != digest(p, Developer)
  {
  }

  /** Whether one of the two inserts meets an identifier already taken. */
  method IdentifiersCollide(digest: Digest, organizations: set<Id>) returns (collide: bool)
    ensures collide <==> !DigestsDiffer(digest, organizations)
  {
    if o, p :| o in organizations && p in organizations && o != p && digest(o, Admin) == digest(p, Admin) {
      return true;
    }
    if o, p :| o in organizations && p in organizations && o != p && digest(o, Developer) == digest(p, Developer) {
      return true;
    }
    if o, p :| o in organizations && p in organizations && digest(o, Admin) == digest(p, Developer) {
      return true;
    }
    collide := false;
  }

  /** Each migration runs in one transaction: a violated constraint leaves the database as it was. */
  class MigratedDatabase {
    var users: set<Id>
    var organizations: Organizations
    var memberships: Memberships
    var roles: map<Id, Role>

    function Data(): Database
      reads this
    {
      Database(users, organizations, memberships, roles)
    }

    constructor (d: Database)
      ensures Data() == d
    {
      users, organizations, memberships, roles := d.users, d.organizations, d.memberships, d.roles;
    }

    method Up002(pick: map<Id, Id>) returns (error: Option<Error>)
      requires Meets001(Data())
      requires forall o :: o in organizations && Owners(Data(), o) != {} ==> o in pick && pick[o] in Owners(Data(), o)
      modifies this
      ensures error == None <==> Upgradable(old(Data()))
      ensures error == Some(NotNullViolation) <==> exists o :: o in old(organizations) && Owners(old(Data()), o) == {}
      ensures error == None ==> Up002Data(old(Data()), Data()) && Meets002(Data())
      ensures error.Some? ==> Data() == old(Data())
    {
      hide Up002Data;
      hide Meets002;
      hide ForeignKeys;
      var before := Data();
      organizations := ExtractOwners(before, pick);
      if o :| o in organizations && organizations[o].owner == None {
        assert Owners(before, o) == {};
        organizations := before.organizations;
        return Some(NotNullViolation);
      }
      assert forall o :: o in before.organizations ==> organizations[o].owner.Some? && Owners(before, o) != {};
      memberships := RenameRole(memberships, Owner, Admin);
      RenamedRolesValid(before.memberships);
      if k :| k in memberships && !RoleValid(memberships[k]) {
        assert before.memberships[k].role != Some(Owner) && before.memberships[k].role != Some(Developer);
        organizations, memberships := before.organizations, before.memberships;
        return Some(CheckViolation);
      }
      assert Upgradable(before);
      OwnersExtracted(before, Data(), pick);
      error := None;
    }

    method Down002() returns (error: Option<Error>)
      requires Meets002(Data())
      modifies this
      ensures error == None && Down002Data(old(Data()), Data()) && Meets001(Data())
    {
      hide Down002Data;
      hide Meets001;
      hide Meets002;
      organizations := DropLifecycle(organizations);
      memberships := DropRemovedAt(memberships);
      memberships := RenameRole(memberships, Admin, Developer);
      memberships := RestoreOwners(memberships, organizations);
      organizations := DropOwners(organizations);
      OwnersRestored(old(Data()), Data());
      error := None;
    }

    method Up003(digest: Digest, now: int) returns (error: Option<Error>)
      requires Meets002(Data())
      modifies this
      ensures error == None <==> DigestsDiffer(digest, old(organizations).Keys)
      ensures error == None ==> Up003Data(digest, now, old(Data()), Data()) && Meets003(Data())
      ensures error.Some? ==> Data() == old(Data())
    {
      hide DigestsDiffer;
      hide RolesFor;
      hide BuiltInRoles;
      hide SystemKeyUnique;
      hide ActiveNameUnique;
      hide AssignRoles;
      hide DropRole;
      hide Meets002;
      hide Meets003;
      hide Up003Data;
      ghost var before := Data();
      var ids := organizations.Keys;
      var collide := IdentifiersCollide(digest, ids);
      if collide {
        return Some(UniqueViolation);
      }
      BatchesApart(digest, ids);
      roles := RolesFor(digest, ids, Admin, "Admin", now);
      ghost var admins := roles;
      roles := roles + RolesFor(digest, ids, Developer, "Developer", now);
      RolesInserted(digest, now, before, admins, RolesFor(digest, ids, Developer, "Developer", now));
      UniqueIndexes(digest, now, before, roles);
      memberships := AssignRoles(memberships, roles);
      memberships := DropRole(memberships);
      Backfilled(digest, now, before, Data());
      error := None;
    }

    method Down003() returns (error: Option<Error>)
      requires Meets003(Data())
      modifies this
      ensures error == None && Down003Data(old(Data()), Data()) && Meets002(Data())
    {
      memberships := NameRoles(memberships, roles);
      memberships := DropRoleId(memberships);
      roles := map[];
      Down003Meets(old(Data()), Data());
      error := None;
    }
  }

  // ----- round trips -----

  lemma RoleSurvives(digest: Digest, now: int, d: Database, e: Database, f: Database, k: (Id, Id))
    requires Meets002(d) && Up003Data(digest, now, d, e) && Down003Data(e, f) && k in d.memberships
    ensures f.memberships[k] == d.memberships[k]
  {
    var key := KeyOf(d.memberships[k].role);
    UniqueIndexes(digest, now, d, e.roles);
    hide SystemKeyUnique;
    JoinsBuiltIn(digest, now, d, e.roles, k.0, key);
    hide BuiltInRoles;
    hide JoinedRole;
    assert e.memberships[k] == d.memberships[k].(role := None, roleId := Some(digest(k.0, key)));
    assert e.roles[digest(k.0, key)].systemKey == Some(key);
    assert f.memberships[k] == e.memberships[k].(roleId := None, role := Some(key));
  }

  /** 003 down undoes 003 up on every database 002 allows. */
  lemma RolesRoundTrip(digest: Digest, now: int, d: Database, e: Database, f: Database)
    requires Meets002(d) && Up003Data(digest, now, d, e) && Down003Data(e, f)
    ensures f == d
  {
    forall k | k in d.memberships ensures f.memberships[k] == d.memberships[k] {
      RoleSurvives(digest, now, d, e, f, k);
    }
    hide BuiltInRoles;
    hide KeyOf;
    assert f.memberships == d.memberships;
  }

  /** No organization has two owners. */
  predicate SingleOwners(d: Database) {
    forall k, l ::
      k in d.memberships && l in d.memberships && k.0 == l.0 && d.memberships[k].role == d.memberships[l].role == Some(Owner)
      ==> k == l
  }

  /** The user 002 up puts in the owner column held the owner role. */
  lemma OwnerHeldRole(d: Database, e: Database, o: Id)
    requires Up002Data(d, e) && o in d.organizations
    ensures e.organizations[o].owner.Some?
    ensures (o, e.organizations[o].owner.value) in d.memberships
    ensures d.memberships[(o, e.organizations[o].owner.value)].role == Some(Owner)
  {
    assert e.organizations[o].owner.value in Owners(d, o);
  }

  lemma OwnerRow(d: Database, e: Database, f: Database, k: (Id, Id))
    requires Meets001(d) && Up002Data(d, e) && Down002Data(e, f) && k in d.memberships
    ensures k.0 in d.organizations && k in f.memberships
    ensures f.memberships[k] == d.memberships[k].(
              role := if e.organizations[k.0].owner == Some(k.1) then Some(Owner) else Some(Developer))
  {
    hide Owners;
  }

  lemma OtherDataSurvives(d: Database, e: Database, f: Database)
    requires Meets001(d) && Up002Data(d, e) && Down002Data(e, f)
    ensures f == d <==> (forall k :: k in d.memberships ==> f.memberships[k] == d.memberships[k])
  {
    hide Owners;
    forall o | o in d.organizations ensures f.organizations[o] == d.organizations[o] {
    }
    assert f.organizations == d.organizations;
  }

  /** 002 down undoes 002 up exactly when no organization had two owners. */
  lemma OwnersRoundTrip(d: Database, e: Database, f: Database)
    requires Meets001(d) && Upgradable(d) && Up002Data(d, e) && Down002Data(e, f)
    ensures f == d <==> SingleOwners(d)
  {
    OtherDataSurvives(d, e, f);
    forall k | k in d.memberships
      ensures k.0 in d.organizations && (d.memberships[k].role == Some(Owner) || d.memberships[k].role == Some(Developer))
      ensures e.organizations[k.0].owner.Some?
      ensures (k.0, e.organizations[k.0].owner.value) in d.memberships
      ensures d.memberships[(k.0, e.organizations[k.0].owner.value)].role == Some(Owner)
      ensures f.memberships[k] == d.memberships[k].(
                role := if e.organizations[k.0].owner == Some(k.1) then Some(Owner) else Some(Developer))
    {
      OwnerRow(d, e, f, k);
      OwnerHeldRole(d, e, k.0);
    }
    hide Meets001;
    hide Up002Data;
    hide Down002Data;
    hide Upgradable;
  }

  const TWO_OWNERS: Database := Database(
    {1, 2}, map[7 := Organization("Acme", 0, 0, None, None, None)],
    map[(7, 1) := Membership(Some(Owner), None, Active, 0, 0, None),
        (7, 2) := Membership(Some(Owner), None, Active, 0, 0, None)],
    map[])

  lemma TwoOwnersUpgradable()
    ensures Meets001(TWO_OWNERS) && Upgradable(TWO_OWNERS) && !SingleOwners(TWO_OWNERS)
  {
    var d := TWO_OWNERS;
    assert (7, 1) in d.memberships && (7, 2) in d.memberships;
    assert !SingleOwners(d);
    assert Upgradable(d) by {
      assert 1 in Owners(d, 7);
    }
    assert NotBlank("Acme") by {
      assert "Acme"[0] != ' ';
    }
    hide NotBlank;
    hide Upgradable;
    hide SingleOwners;
  }

  /** A database 001 allows and 002 accepts that does not come back. */
  lemma TwoOwnersLost(e: Database, f: Database)
    requires Up002Data(TWO_OWNERS, e) && Down002Data(e, f)
    ensures Meets001(TWO_OWNERS) && Upgradable(TWO_OWNERS) && f != TWO_OWNERS
  {
    hide *;
    TwoOwnersUpgradable();
    OwnersRoundTrip(TWO_OWNERS, e, f);
  }

  /** Up through 002 and 003 and back down restores the database exactly when no organization had two owners. */
  lemma MigrationRoundTrip(
    digest: Digest, now: int, d: Database, up2: Database, up3: Database, down3: Database, down2: Database)
    requires Meets001(d) && Upgradable(d)
    requires Up002Data(d, up2) && Up003Data(digest, now, up2, up3) && Down003Data(up3, down3) && Down002Data(down3, down2)
    ensures Meets003(up3) && RoleForeignKey(up3) && SystemKeyUnique(up3.roles) && ActiveNameUnique(up3.roles)
    ensures down3 == up2
    ensures down2 == d <==> SingleOwners(d)
  {
    Up002Meets(d, up2);
    Up003Meets(digest, now, up2, up3);
    assert RoleForeignKey(up3) && SystemKeyUnique(up3.roles) && ActiveNameUnique(up3.roles);
    hide *;
    RolesRoundTrip(digest, now, up2, up3, down3);
    OwnersRoundTrip(d, up2, down2);
  }

  // ----- one database up, another down -----

  const LEGACY: Database := Database(
    {1, 2}, map[7 := Organization("Acme", 5, 6, None, None, None)],
    map[(7, 1) := Membership(Some(Owner), None, Active, 8, 9, None),
        (7, 2) := Membership(Some(Developer), None, Suspended, 10, 11, None)],
    map[])

  const EXTRACTED: Database := Database(
    {1, 2}, map[7 := Organization("Acme", 5, 6, Some(1), None, None)],
    map[(7, 1) := Membership(Some(Admin), None, Active, 8, 9, None),
        (7, 2) := Membership(Some(Developer), None, Suspended, 10, 11, None)],
    map[])

  /** An owner and a developer, through 002. */
  lemma Up002Example(e: Database)
    requires Up002Data(LEGACY, e)
    ensures e == EXTRACTED
  {
    assert 7 in LEGACY.organizations && (7, 1) in LEGACY.memberships && (7, 2) in LEGACY.memberships;
    assert e.organizations[7].owner.value in Owners(LEGACY, 7);
    hide Owners;
    assert 7 in e.organizations && (7, 1) in e.memberships && (7, 2) in e.memberships;
  }

  /** The same, through 003. */
  lemma Up003Example(digest: Digest, now: int, e: Database)
    requires Up003Data(digest, now, EXTRACTED, e)
    ensures e.users == EXTRACTED.users && e.organizations == EXTRACTED.organizations
    ensures e.memberships == map[
      (7, 1) := Membership(None, Some(digest(7, Admin)), Active, 8, 9, None),
      (7, 2) := Membership(None, Some(digest(7, Developer)), Suspended, 10, 11, None)]
    ensures e.roles == map[
      digest(7, Admin) := Role(7, "Admin", Some(Admin), now, now, None),
      digest(7, Developer) := Role(7, "Developer", Some(Developer), now, now, None)]
  {
    assert 7 in EXTRACTED.organizations && (7, 1) in EXTRACTED.memberships && (7, 2) in EXTRACTED.memberships;
    forall r | r in e.roles ensures r == digest(7, Admin) || r == digest(7, Developer) {
      assert e.roles[r].organization in EXTRACTED.organizations;
    }
    assert digest(7, Admin) in e.roles && digest(7, Developer) in e.roles;
  }

  const CURRENT: Database := Database(
    {1, 2, 3}, map[7 := Organization("Acme", 5, 6, Some(2), Some(30), Some(31))],
    map[(7, 1) := Membership(None, Some(10), Active, 8, 9, None),
        (7, 2) := Membership(None, Some(12), Suspended, 10, 11, None),
        (7, 3) := Membership(None, Some(11), Active, 12, 13, Some(20))],
    map[10 := Role(7, "Admin", Some(Admin), 1, 1, None), 11 := Role(7, "Developer", Some(Developer), 1, 1, None),
        12 := Role(7, "Auditor", None, 1, 1, None)])

  const NAMED: Database := Database(
    {1, 2, 3}, CURRENT.organizations,
    map[(7, 1) := Membership(Some(Admin), None, Active, 8, 9, None),
        (7, 2) := Membership(Some(Developer), None, Suspended, 10, 11, None),
        (7, 3) := Membership(Some(Developer), None, Active, 12, 13, Some(20))],
    map[])

  /** An Admin, the owner with a custom role and a removed developer, back through 003. */
  lemma Down003Example(e: Database)
    requires Down003Data(CURRENT, e)
    ensures e == NAMED
  {
    assert (7, 1) in CURRENT.memberships && (7, 2) in CURRENT.memberships && (7, 3) in CURRENT.memberships;
  }

  /** The same, back through 002. */
  lemma Down002Example(e: Database)
    requires Down002Data(NAMED, e)
    ensures e == Database(
      {1, 2, 3}, map[7 := Organization("Acme", 5, 6, None, None, None)],
      map[(7, 1) := Membership(Some(Developer), None, Active, 8, 9, None),
          (7, 2) := Membership(Some(Owner), None, Suspended, 10, 11, None),
          (7, 3) := Membership(Some(Developer), None, Active, 12, 13, None)],
      map[])
  {
    assert 7 in NAMED.organizations;
    assert (7, 1) in NAMED.memberships && (7, 2) in NAMED.memberships && (7, 3) in NAMED.memberships;
  }

  /** Names are compared without regard to case. */
  lemma CaseExample()
    ensures Lower("aB") == "ab" && Lower("AB") == "ab" && Lower("ac") != "ab"
  {
    assert |Lower("aB")| == |Lower("AB")| == |"ab"|;
    assert Lower("aB") == "ab" by {
      assert Lower("aB")[0] == "ab"[0] && Lower("aB")[1] == "ab"[1];
    }
    assert Lower("AB") == "ab" by {
      assert Lower("AB")[0] == "ab"[0] && Lower("AB")[1] == "ab"[1];
    }
    assert Lower("ac")[1] != "ab"[1];
  }

  /** A name of spaces is blank, and any other character makes it one that is not. */
  lemma BlankNames(name: string)
    ensures NotBlank(name) <==> name != seq(|name|, _ => ' ')
  {
    var blank := seq(|name|, _ => ' ');
    if NotBlank(name) {
      var i :| 0 <= i < |name| && name[i] != ' ';
      assert blank[i] == ' ';
    } else {
      assert name == blank;
    }
  }
}
