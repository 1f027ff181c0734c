/** The three-way join behind a user's active organization access, against the filter it stands for. */
module AccessQuery {
  import opened Wrappers
  import opened Migrations

  datatype Access = Access(
    organization: Id, organizationName: string, owner: bool, roleId: Id, roleName: string, roleSystemKey: Option<RoleName>)

  /** One row of the cross product of the three tables: a membership, an organization and a role. */
  datatype Triple = Triple(membership: (Id, Id), organization: Id, role: Id)

  /** The `JOIN ... ON` and `WHERE` conditions. */
  predicate Selected(d: Database, user: Id, t: Triple) {
    && t.membership in d.memberships && t.organization in d.organizations && t.role in d.roles
    && t.organization == t.membership.0
    && d.roles[t.role].organization == t.membership.0
    && d.memberships[t.membership].roleId == Some(t.role)
    && t.membership.1 == user
    && d.memberships[t.membership].status == Active
    && d.memberships[t.membership].removedAt == None
    && d.organizations[t.organization].deletedAt == None
    && d.organizations[t.organization].suspendedAt == None
    && d.roles[t.role].deletedAt == None
  }

  /** `organization` sorts strictly before `other` by (created_at, id). */
  predicate Earlier(d: Database, o: Id, p: Id)
    requires o in d.organizations && p in d.organizations
  {
    d.organizations[o].createdAt < d.organizations[p].createdAt
    || (d.organizations[o].createdAt == d.organizations[p].createdAt && o < p)
  }

  /** `answer` is an order in which the database may return the selected rows. */
  ghost predicate IsAnswer(d: Database, user: Id, answer: seq<Triple>) {
    && (forall i :: 0 <= i < |answer| ==> Selected(d, user, answer[i]))
    && (forall t :: Selected(d, user, t) ==> t in answer)
    && (forall i, j :: 0 <= i < j < |answer| ==> answer[i] != answer[j])
    && (forall i, j :: 0 <= i < j < |answer| ==>
          !Earlier(d, answer[j].organization, answer[i].organization))
  }

  /** The columns selected; the owner flag is `owner_user_id = user_id`. */
  function Columns(d: Database, t: Triple): Access
    requires t.membership in d.memberships && t.organization in d.organizations && t.role in d.roles
  {
    var organization, role := d.organizations[t.organization], d.roles[t.role];
    Access(t.organization, organization.name, organization.owner == Some(t.membership.1), t.role, role.name, role.systemKey)
  }

  // ----- the filter -----

  predicate Live(d: Database, o: Id) {
    o in d.organizations && d.organizations[o].deletedAt == None && d.organizations[o].suspendedAt == None
  }

  /** The user's membership of `o` is active and not removed, and its organization and role are live. */
  predicate Granted(d: Database, user: Id, o: Id) {
    && (o, user) in d.memberships && Live(d, o)
    && var membership := d.memberships[(o, user)];
       && membership.status == Active && membership.removedAt == None
       && membership.roleId.Some? && membership.roleId.value in d.roles && d.roles[membership.roleId.value].deletedAt == None
  }

  function AccessOf(d: Database, user: Id, o: Id): Access
    requires Granted(d, user, o)
  {
    var organization, role := d.organizations[o], d.memberships[(o, user)].roleId.value;
    Access(o, organization.name, organization.owner == Some(user), role, d.roles[role].name, d.roles[role].systemKey)
  }

  /** One entry per granted membership, sorted by the organization's (created_at, id). */
  ghost predicate IsAccessList(d: Database, user: Id, entries: seq<Access>) {
    && (forall i :: 0 <= i < |entries| ==> Granted(d, user, entries[i].organization)
                                           && entries[i] == AccessOf(d, user, entries[i].organization))
    && (forall o :: Granted(d, user, o) ==> exists i :: 0 <= i < |entries| && entries[i].organization == o)
    && (forall i, j :: 0 <= i < j < |entries| ==> Earlier(d, entries[i].organization, entries[j].organization))
  }

  /** The declared keys make a granted membership's row of the join the only one. */
  lemma SelectedIsGranted(d: Database, user: Id, t: Triple)
    requires Meets003(d)
    ensures Selected(d, user, t) <==>
            Granted(d, user, t.organization) && t.membership == (t.organization, user)
            && d.memberships[t.membership].roleId == Some(t.role)
    ensures Selected(d, user, t) ==> Columns(d, t) == AccessOf(d, user, t.organization)
  {
    assert RoleForeignKey(d);
    hide SystemKeyUnique;
    hide ActiveNameUnique;
    hide ForeignKeys;
    hide NotBlank;
  }

  lemma RowOf(d: Database, user: Id, o: Id) returns (t: Triple)
    requires Meets003(d) && Granted(d, user, o)
    ensures Selected(d, user, t) && t.organization == o
  {
    t := Triple((o, user), o, d.memberships[(o, user)].roleId.value);
    SelectedIsGranted(d, user, t);
  }

  /** No two rows of the join are of one organization. */
  lemma OneRowPerOrganization(d: Database, user: Id, t: Triple, u: Triple)
    requires Meets003(d) && Selected(d, user, t) && Selected(d, user, u) && t != u
    ensures t.organization != u.organization
  {
    hide Meets003;
  }

  /** Any answer to the join query is the sorted filter. */
  lemma AnswerIsAccessList(d: Database, user: Id, answer: seq<Triple>, entries: seq<Access>)
    requires Meets003(d) && IsAnswer(d, user, answer)
    requires |entries| == |answer| && forall i :: 0 <= i < |answer| ==> entries[i] == Columns(d, answer[i])
    ensures IsAccessList(d, user, entries)
  {
    hide Meets003;
    hide Granted;
    hide AccessOf;
    forall i | 0 <= i < |entries|
      ensures Granted(d, user, entries[i].organization) && entries[i] == AccessOf(d, user, entries[i].organization)
    {
      SelectedIsGranted(d, user, answer[i]);
    }
    forall o | Granted(d, user, o) ensures exists i :: 0 <= i < |entries| && entries[i].organization == o {
      var t := RowOf(d, user, o);
      var i :| 0 <= i < |answer| && answer[i] == t;
      assert entries[i].organization == o;
    }
    forall i, j | 0 <= i < j < |entries| ensures Earlier(d, entries[i].organization, entries[j].organization) {
      OneRowPerOrganization(d, user, answer[i], answer[j]);
    }
  }

  ghost predicate Sorted(d: Database, os: seq<Id>) {
    && (forall i :: 0 <= i < |os| ==> os[i] in d.organizations)
    && forall i, j :: 0 <= i < j < |os| ==> Earlier(d, os[i], os[j])
  }

  lemma FirstIsEarliest(d: Database, os: seq<Id>, o: Id)
    requires Sorted(d, os) && o in os
    ensures o in d.organizations && (o == os[0] || Earlier(d, os[0], o))
  {
  }

  lemma SubseqEmpty(os: seq<Id>, ps: seq<Id>)
    requires forall o :: o in os ==> o in ps
    ensures ps == [] ==> os == []
  {
    if os != [] {
      var o := os[0];
      assert o in os;
    }
  }

  lemma {:induction false} SortedUnique(d: Database, os: seq<Id>, ps: seq<Id>)
    requires Sorted(d, os) && Sorted(d, ps) && forall o :: o in os <==> o in ps
    ensures os == ps
  {
    if os != [] && ps != [] {
      assert os[0] in os && ps[0] in ps;
      FirstIsEarliest(d, os, ps[0]);
      FirstIsEarliest(d, ps, os[0]);
      var os', ps' := os[1..], ps[1..];
      forall o ensures o in os' <==> o in ps' {
        assert o in os <==> o == os[0] || o in os';
        assert o in ps <==> o == ps[0] || o in ps';
        assert os[0] !in os' && ps[0] !in ps';
      }
      SortedUnique(d, os', ps');
      assert os == [os[0]] + os' && ps == [ps[0]] + ps';
    } else {
      SubseqEmpty(os, ps);
      SubseqEmpty(ps, os);
    }
  }

  function Organizations(entries: seq<Access>): (os: seq<Id>)
    ensures |os| == |entries| && forall i :: 0 <= i < |entries| ==> os[i] == entries[i].organization
  {
    seq(|entries|, i requires 0 <= i < |entries| => entries[i].organization)
  }

  /** The filter and the order leave one list only, so the database has one answer to give. */
  lemma AccessListUnique(d: Database, user: Id, v: seq<Access>, w: seq<Access>)
    requires IsAccessList(d, user, v) && IsAccessList(d, user, w)
    ensures v == w
  {
    hide Earlier;
    hide AccessOf;
    hide Granted;
    var os, ps := Organizations(v), Organizations(w);
    forall o ensures o in os <==> Granted(d, user, o) {
      assert Granted(d, user, o) ==> exists i :: 0 <= i < |v| && v[i].organization == o;
    }
    forall o ensures o in ps <==> Granted(d, user, o) {
      assert Granted(d, user, o) ==> exists i :: 0 <= i < |w| && w[i].organization == o;
    }
    assert os == ps by {
      GrantedSorted(d, user, v);
      GrantedSorted(d, user, w);
      SortedUnique(d, os, ps);
    }
    forall i | 0 <= i < |v| ensures v[i] == w[i] {
      assert os[i] == ps[i];
    }
  }

  lemma GrantedSorted(d: Database, user: Id, v: seq<Access>)
    requires IsAccessList(d, user, v)
    ensures Sorted(d, Organizations(v))
  {
    hide AccessOf;
    hide Earlier;
  }

  /** The rows of the join behind a list. */
  function Rows(user: Id, entries: seq<Access>): (rows: seq<Triple>)
    ensures |rows| == |entries|
    ensures forall i :: 0 <= i < |entries| ==>
              rows[i] == Triple((entries[i].organization, user), entries[i].organization, entries[i].roleId)
  {
    seq(|entries|, i requires 0 <= i < |entries| =>
      Triple((entries[i].organization, user), entries[i].organization, entries[i].roleId))
  }

  /** Conversely the database may give the sorted filter as its answer. */
  lemma AccessListIsAnswer(d: Database, user: Id, entries: seq<Access>)
    requires Meets003(d) && IsAccessList(d, user, entries)
    ensures IsAnswer(d, user, Rows(user, entries))
    ensures forall i :: 0 <= i < |entries| ==> Columns(d, Rows(user, entries)[i]) == entries[i]
  {
    var rows := Rows(user, entries);
    forall i | 0 <= i < |rows| ensures Selected(d, user, rows[i]) && Columns(d, rows[i]) == entries[i] {
      SelectedIsGranted(d, user, rows[i]);
    }
    forall t | Selected(d, user, t) ensures t in rows {
      SelectedIsGranted(d, user, t);
      var i :| 0 <= i < |entries| && entries[i].organization == t.organization;
      assert rows[i] == t;
    }
    hide Meets003;
    hide Granted;
    hide AccessOf;
    hide Selected;
  }

  /** The list by its columns: who is in it, what each entry says, and the order. */
  lemma AccessListColumns(d: Database, user: Id, entries: seq<Access>)
    requires IsAccessList(d, user, entries)
    ensures forall i :: 0 <= i < |entries| ==>
              var e := entries[i];
              && e.organization in d.organizations && (e.organization, user) in d.memberships && e.roleId in d.roles
              && var organization, membership, role :=
                   d.organizations[e.organization], d.memberships[(e.organization, user)], d.roles[e.roleId];
                 && membership.status == Active && membership.removedAt == None && membership.roleId == Some(e.roleId)
                 && organization.deletedAt == None && organization.suspendedAt == None && role.deletedAt == None
                 && e == Access(e.organization, organization.name, organization.owner == Some(user),
                                e.roleId, role.name, role.systemKey)
    ensures forall o :: o in d.organizations && (o, user) in d.memberships ==>
              var organization, membership := d.organizations[o], d.memberships[(o, user)];
              membership.status == Active && membership.removedAt == None
              && organization.deletedAt == None && organization.suspendedAt == None
              && membership.roleId.Some? && membership.roleId.value in d.roles
              && d.roles[membership.roleId.value].deletedAt == None
              ==> exists i :: 0 <= i < |entries| && entries[i].organization == o
    ensures forall i, j :: 0 <= i < j < |entries| ==>
              && entries[i].organization in d.organizations && entries[j].organization in d.organizations
              && var first, second := d.organizations[entries[i].organization], d.organizations[entries[j].organization];
                 first.createdAt < second.createdAt
                 || (first.createdAt == second.createdAt && entries[i].organization < entries[j].organization)
  {
    forall o | o in d.organizations && (o, user) in d.memberships
      ensures
        var organization, membership := d.organizations[o], d.memberships[(o, user)];
        membership.status == Active && membership.removedAt == None
        && organization.deletedAt == None && organization.suspendedAt == None
        && membership.roleId.Some? && membership.roleId.value in d.roles
        && d.roles[membership.roleId.value].deletedAt == None
        ==> Granted(d, user, o)
    {
    }
  }

  // ----- there is a list -----

  lemma EarlierTotal(d: Database, o: Id, p: Id)
    requires o in d.organizations && p in d.organizations && o != p
    ensures Earlier(d, o, p) || Earlier(d, p, o)
  {
  }

  /** `o` put where it sorts. */
  lemma {:induction false} Inserted(d: Database, os: seq<Id>, o: Id) returns (ps: seq<Id>)
    requires Sorted(d, os) && o in d.organizations && o !in os
    ensures Sorted(d, ps) && forall q :: q in ps <==> q == o || q in os
  {
    if os == [] {
      ps := [o];
    } else {
      EarlierTotal(d, os[0], o);
      if Earlier(d, o, os[0]) {
        ps := [o] + os;
      } else {
        var rest := Inserted(d, os[1..], o);
        assert os == [os[0]] + os[1..];
        forall q | q in rest ensures Earlier(d, os[0], q) {
          assert q == o || q in os[1..];
        }
        ps := [os[0]] + rest;
      }
    }
  }

  lemma {:induction false} SortedListing(d: Database, all: set<Id>) returns (os: seq<Id>)
    requires all <= d.organizations.Keys
    ensures Sorted(d, os) && forall o :: o in os <==> o in all
    decreases |all|
  {
    os := [];
    if o :| o in all {
      var rest := SortedListing(d, all - {o});
      os := Inserted(d, rest, o);
    }
  }

  /** Every database has an access list for every user. */
  lemma AccessListExists(d: Database, user: Id) returns (entries: seq<Access>)
    ensures IsAccessList(d, user, entries)
  {
    var all := set o | o in d.organizations && Granted(d, user, o);
    var os := SortedListing(d, all);
    assert forall o :: o in os <==> Granted(d, user, o);
    entries := seq(|os|, i requires 0 <= i < |os| => AccessOf(d, user, os[i]));
    hide Earlier;
    forall o | Granted(d, user, o) ensures exists i :: 0 <= i < |entries| && entries[i].organization == o {
      assert o in os;
      var i :| 0 <= i < |os| && os[i] == o;
      assert entries[i].organization == o;
    }
  }

  /** Under the declared keys the query always has an answer, and one only. */
  lemma AnswerExists(d: Database, user: Id) returns (answer: seq<Triple>)
    requires Meets003(d)
    ensures IsAnswer(d, user, answer)
  {
    var entries := AccessListExists(d, user);
    AccessListIsAnswer(d, user, entries);
    answer := Rows(user, entries);
  }

  /** Through 002 and 003 every active membership, and no other, keeps its access; former owners come out as Admins. */
  lemma UpgradeKeepsAccess(digest: Digest, now: int, d: Database, up2: Database, up3: Database, user: Id, o: Id)
    requires Meets001(d) && Upgradable(d) && Up002Data(d, up2) && Up003Data(digest, now, up2, up3)
    ensures Granted(up3, user, o) <==> (o, user) in d.memberships && d.memberships[(o, user)].status == Active
    ensures Granted(up3, user, o) ==>
              var access, role := AccessOf(up3, user, o), d.memberships[(o, user)].role;
              && access.organizationName == d.organizations[o].name
              && access.roleSystemKey == Some(if role == Some(Owner) then Admin else Developer)
              && access.roleName == (if role == Some(Owner) then "Admin" else "Developer")
              && (access.owner ==> role == Some(Owner))
  {
    Up002Meets(d, up2);
    if (o, user) in d.memberships {
      var key := KeyOf(up2.memberships[(o, user)].role);
      OwnerHeldRole(d, up2, o);
      UniqueIndexes(digest, now, up2, up3.roles);
      JoinsBuiltIn(digest, now, up2, up3.roles, o, key);
      BuiltInRole(digest, now, up2, up3.roles, digest(o, key));
      hide BuiltInRoles;
      hide SystemKeyUnique;
      hide ActiveNameUnique;
      hide JoinedRole;
      hide NotBlank;
      hide Owners;
      hide Meets002;
    }
  }
}
