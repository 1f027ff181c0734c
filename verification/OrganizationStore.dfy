/** The organization repository's transaction and listing, and the service that calls it. */
module OrganizationStore {
  import opened Wrappers
  import opened Migrations
  import opened AccessQuery
  import opened OrganizationCreation
  import RedisLimiter

  datatype ScanFault = NoFault | QueryFails | ScanFails(row: nat) | RowsFail

  class OrganizationRepository {
    var data: Database

    ghost predicate Valid()
      reads this
    {
      Meets003(data)
    }

    constructor (d: Database)
      requires Meets003(d)
      ensures Valid() && data == d
    {
      data := d;
    }

    /** The transaction commits: each insert is accepted and no round trip fails. */
    ghost predicate Commits(
      n: NewOrganization, roles: seq<NewRole>, m: NewMembership, now: int, fails: nat -> bool)
      reads this
    {
      Creation(data, n, roles, m, now).Ok? && forall k :: 0 <= k <= |roles| + 3 ==> !fails(k)
    }

    /**
     `fails` says which of the transaction's round trips fail: begin, each insert in turn, commit.  With
     `replyLost` the commit succeeds and its reply is lost.
     */
    method CreateOrganizationWithOwner(
      n: NewOrganization, roles: seq<NewRole>, m: NewMembership, now: int, fails: nat -> bool, replyLost: bool)
      returns (result: Result<(Organization, Membership), Failure>)
      requires Valid()
      modifies this
      ensures Valid()
      ensures result.Ok? <==>
                Creation(old(data), n, roles, m, now).Ok? && (forall k :: 0 <= k <= |roles| + 3 ==> !fails(k)) && !replyLost
      ensures result.Ok? ==>
                result.value == (Organization(n.name, now, now, Some(n.owner), None, None),
                                 Membership(None, Some(m.role), m.status, now, now, None))
      ensures old(Commits(n, roles, m, now, fails)) ==> Creation(old(data), n, roles, m, now) == Ok(data)
      ensures !old(Commits(n, roles, m, now, fails)) ==> data == old(data)
    {
      hide Meets003;
      if fails(0) {
        return Err(DatabaseFailed);
      }
      var tx := data;
      if fails(1) {
        return Err(DatabaseFailed);
      }
      var inserted := InsertOrganization(tx, n, now);
      if inserted.Err? {
        return Err(Violation(inserted.error));
      }
      tx := inserted.value;
      for i := 0 to |roles|
        invariant InsertRoles(inserted.value, roles[..i], now) == Ok(tx)
        invariant forall k :: 0 <= k < i + 2 ==> !fails(k)
        invariant data == old(data)
      {
        assert roles[..i + 1][..i] == roles[..i];
        var step := InsertRole(tx, roles[i], now);
        if fails(i + 2) {
          return Err(DatabaseFailed);
        }
        if step.Err? {
          InsertRolesStops(inserted.value, roles, i + 1, now);
          return Err(Violation(step.error));
        }
        tx := step.value;
      }
      assert roles[..|roles|] == roles;
      var last := InsertMembership(tx, m, now);
      if fails(|roles| + 2) {
        return Err(DatabaseFailed);
      }
      if last.Err? {
        return Err(Violation(last.error));
      }
      if fails(|roles| + 3) {
        return Err(DatabaseFailed);
      }
      CreationKeeps(data, n, roles, m, now);
      data := last.value;
      if replyLost {
        return Err(DatabaseFailed);
      }
      result := Ok((OrganizationRow(n, now), MembershipRow(m, now)));
    }

    /** The generated query: `answer` is what the database sends, row by row. */
    method ListActiveOrganizationAccessByUser(user: Id, answer: seq<Triple>, fault: ScanFault)
      returns (result: Result<seq<Access>, Failure>)
      requires Valid() && IsAnswer(data, user, answer)
      ensures result.Err? <==> fault == QueryFails || fault == RowsFail || (fault.ScanFails? && fault.row < |answer|)
      ensures result.Ok? ==> IsAccessList(data, user, result.value)
      ensures result.Ok? ==> forall i, j :: 0 <= i < j < |result.value| ==>
                && result.value[i].organization in data.organizations && result.value[j].organization in data.organizations
                && var first, second :=
                     data.organizations[result.value[i].organization], data.organizations[result.value[j].organization];
                   first.createdAt < second.createdAt
                   || (first.createdAt == second.createdAt && result.value[i].organization < result.value[j].organization)
    {
      if fault == QueryFails {
        return Err(DatabaseFailed);
      }
      var items: seq<Access> := [];
      for i := 0 to |answer|
        invariant |items| == i && forall j :: 0 <= j < i ==> items[j] == Columns(data, answer[j])
        invariant fault.ScanFails? ==> i <= fault.row
      {
        if fault.ScanFails? && fault.row == i {
          return Err(DatabaseFailed);
        }
        items := items + [Columns(data, answer[i])];
      }
      if fault == RowsFail {
        return Err(DatabaseFailed);
      }
      AnswerIsAccessList(data, user, answer, items);
      AccessListColumns(data, user, items);
      result := Ok(items);
    }
  }

  lemma {:induction false} InsertRolesStops(d: Database, roles: seq<NewRole>, n: nat, now: int)
    requires n <= |roles| && InsertRoles(d, roles[..n], now).Err?
    ensures InsertRoles(d, roles, now).Err?
    decreases |roles| - n
  {
    if n == |roles| {
      assert roles[..n] == roles;
    } else {
      assert roles[..n + 1][..n] == roles[..n];
      InsertRolesStops(d, roles, n + 1, now);
    }
  }

  datatype ServiceError = NameRequired | OwnerRequired | NoIdentifier | Repository(failure: Failure)

  /** The zero UUID. */
  const NIL: Id := 0

  class OrganizationManagementService {
    const repository: OrganizationRepository

    constructor (repository: OrganizationRepository)
      ensures this.repository == repository
    {
      this.repository := repository;
    }

    /** The request is valid, its owner exists, its identifiers are new, and no round trip fails. */
    ghost predicate Commits(name: string, owner: Id, ids: Option<(Id, Id, Id)>, fails: nat -> bool)
      reads repository
    {
      && RedisLimiter.TrimSpace(name) != "" && owner != NIL && ids.Some?
      && owner in repository.data.users && Fresh(repository.data, ids.value.0, ids.value.1, ids.value.2)
      && forall k :: 0 <= k <= 5 ==> !fails(k)
    }

    /** `ids` are the organization, Admin role and Developer role identifiers, or `None` when one could not be drawn. */
    method CreateOrganization(
      name: string, owner: Id, ids: Option<(Id, Id, Id)>, now: int, fails: nat -> bool, replyLost: bool)
      returns (result: Result<(Organization, Membership), ServiceError>)
      requires repository.Valid()
      modifies repository
      ensures repository.Valid()
      ensures result.Ok? <==>
                && RedisLimiter.TrimSpace(name) != "" && owner != 0 && ids.Some?
                && owner in old(repository.data.users) && ids.value.0 !in old(repository.data.organizations)
                && ids.value.1 !in old(repository.data.roles) && ids.value.2 !in old(repository.data.roles)
                && ids.value.1 != ids.value.2 && (forall k :: 0 <= k <= 5 ==> !fails(k)) && !replyLost
      ensures result == Err(NameRequired) <==> RedisLimiter.TrimSpace(name) == ""
      ensures result == Err(OwnerRequired) <==> RedisLimiter.TrimSpace(name) != "" && owner == 0
      ensures result == Err(NoIdentifier) <==> RedisLimiter.TrimSpace(name) != "" && owner != 0 && ids == None
      ensures result.Ok? ==>
                result.value == (Organization(RedisLimiter.TrimSpace(name), now, now, Some(owner), None, None),
                                 Membership(None, Some(ids.value.1), Active, now, now, None))
      ensures !old(Commits(name, owner, ids, fails)) ==> repository.data == old(repository.data)
      ensures old(Commits(name, owner, ids, fails)) ==>
                repository.data == Created(old(repository.data), ids.value.0, owner, RedisLimiter.TrimSpace(name),
                                           ids.value.1, ids.value.2, now)
    {
      var trimmed := RedisLimiter.TrimSpace(name);
      if trimmed == "" {
        return Err(NameRequired);
      }
      if owner == NIL {
        return Err(OwnerRequired);
      }
      if ids == None {
        return Err(NoIdentifier);
      }
      var (id, admin, developer) := ids.value;
      TrimmedIsNotBlank(name);
      ServiceCreationExact(repository.data, id, owner, trimmed, admin, developer, now);
      hide Meets003;
      hide NotBlank;
      hide Fresh;
      hide Created;
      hide Creation;
      var created := repository.CreateOrganizationWithOwner(
        NewOrganization(id, owner, trimmed), BuiltIns(id, admin, developer), NewMembership(id, owner, admin, Active),
        now, fails, replyLost);
      result := match created
        case Ok(rows) => Ok(rows)
        case Err(failure) => Err(Repository(failure));
    }
  }

  /** What the service accepts as a name the schema accepts too. */
  lemma TrimmedIsNotBlank(name: string)
    requires RedisLimiter.TrimSpace(name) != ""
    ensures NotBlank(RedisLimiter.TrimSpace(name))
  {
    assert RedisLimiter.TrimSpace(name)[0] != ' ';
  }
}
