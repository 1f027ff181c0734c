/** `Create` as one call runs it: lock, insert, revoke the surplus, commit, then invalidate the cache. */
module SessionStore {
  import opened Wrappers
  import opened Sessions

  datatype Error = Conflict | Database | Scan

  /** Where the database lets the call down, if anywhere; `OtherDuplicate` is a unique violation not of the token. */
  datatype Fault =
    | NoFault | BeginFails | LockFails | OtherDuplicate | InsertFails | UpdateFails | RowFails(row: nat)
    | CommitFails | CommitReplyLost

  class PostgresSessionStore {
    var sessions: Table
    var cache: map<Token, Session>
    const maximumActiveSessions: nat

    constructor (maximumActiveSessions: nat, sessions: Table, cache: map<Token, Session>)
      requires maximumActiveSessions >= 1
      ensures this.maximumActiveSessions == maximumActiveSessions
      ensures this.sessions == sessions && this.cache == cache
    {
      this.maximumActiveSessions, this.sessions, this.cache := maximumActiveSessions, sessions, cache;
    }

    /** Copies the returned tokens one by one; a row that cannot be read fails the call. */
    method ReadRevoked(rows: seq<Token>, fault: Fault) returns (result: Result<seq<Token>, Error>)
      ensures result == if fault.RowFails? && fault.row < |rows| then Err(Scan) else Ok(rows)
    {
      var revoked: seq<Token> := [];
      for i := 0 to |rows|
        invariant revoked == rows[..i]
        invariant fault.RowFails? ==> fault.row >= i
      {
        if fault == RowFails(i) {
          return Err(Scan);
        }
        revoked := revoked + [rows[i]];
      }
      assert rows[..|rows|] == rows;
      result := Ok(revoked);
    }

    /** Every deletion is attempted; those that fail leave their entry to expire. */
    method Invalidate(revoked: seq<Token>, undeletable: set<Token>)
      modifies this`cache
      ensures cache == old(cache) - (Elements(revoked) - undeletable)
    {
      for i := 0 to |revoked|
        invariant cache == old(cache) - (Elements(revoked[..i]) - undeletable)
      {
        ElementsAppend(revoked[..i], revoked[i]);
        assert revoked[..i + 1] == revoked[..i] + [revoked[i]];
        if revoked[i] !in undeletable {
          cache := cache - {revoked[i]};
        }
      }
      assert revoked[..|revoked|] == revoked;
    }

    /**
     Only unrevoked and unexpired rows of the subject are revoked, none if there are no more than the maximum of
     them, and with unique identifiers exactly those with the maximum or more such rows newer than they are.
     */
    ghost predicate RevokesSurplus(table: Table, record: Session, rows: seq<Token>) {
      && (forall other :: other in rows ==>
            && other in table && table[other].subject == record.subject && table[other].revokedAt == None
            && table[other].expiresAt > record.createdAt)
      && (rows != [] ==>
            |set other | other in table && table[other].subject == record.subject && table[other].revokedAt == None
                         && table[other].expiresAt > record.createdAt| > maximumActiveSessions)
      && ((forall a, b :: a in table && b in table && table[a].id == table[b].id ==> a == b) ==>
            forall other :: other in table ==>
              (other in rows <==>
                 && table[other].subject == record.subject && table[other].revokedAt == None
                 && table[other].expiresAt > record.createdAt
                 && |Newer(table, other, record.createdAt)| >= maximumActiveSessions))
    }

    lemma RowsAreSurplus(table: Table, record: Session, order: seq<Token>, rows: seq<Token>)
      requires Ranks(table, record.subject, record.createdAt, order)
      requires Elements(rows) == Elements(Surplus(order, maximumActiveSessions))
      ensures RevokesSurplus(table, record, rows)
    {
      var t, k := record.createdAt, maximumActiveSessions;
      forall other ensures other in rows <==> other in Surplus(order, k) {
        assert other in rows <==> other in Elements(rows);
        assert other in Surplus(order, k) <==> other in Elements(Surplus(order, k));
      }
      RankedColumns(table, record.subject, t, order);
      if |set other | other in table && table[other].subject == record.subject && table[other].revokedAt == None
                      && table[other].expiresAt > t| <= k {
        FewAreKept(table, record.subject, t, order, k);
        NoMembers(rows, Surplus(order, k));
      }
      if forall a, b :: a in table && b in table && table[a].id == table[b].id ==> a == b {
        forall other | other in table
          ensures other in rows <==>
                    && table[other].subject == record.subject && table[other].revokedAt == None
                    && table[other].expiresAt > t && |Newer(table, other, t)| >= k
        {
          RevokesByColumns(table, record.subject, t, order, k, other);
        }
      }
      hide Ranks;
      hide Newer;
    }

    /**
     What a creation leaves: of the inserted row and the rows others left, `rows` are revoked at its creation
     time and nothing else changes; the cap holds; the kept sessions that are still active are the active ones;
     and its own session is among them exactly when fewer than the maximum rank before it.
     */
    ghost predicate Committed(
      token: Token, record: Session, atTrim: Table, atCommit: Table, order: seq<Token>, rows: seq<Token>, after: Table)
    {
      var inserted, table, at := atCommit[token := record], atTrim[token := record], record.createdAt;
      && RevokedAlone(inserted, after, rows, at)
      && Capped(after, record.subject, at, maximumActiveSessions)
      && Active(after, record.subject, at)
         == Elements(Kept(order, maximumActiveSessions)) * Active(inserted, record.subject, at)
      && (IsActive(record, record.subject, at) && DistinctIds(table, Active(table, record.subject, at)) ==>
            (token in Active(after, record.subject, at) <==> |Ahead(table, token, at)| < maximumActiveSessions))
    }

    lemma CommitsSo(token: Token, record: Session, atTrim: Table, atCommit: Table, order: seq<Token>, rows: seq<Token>)
      requires Ranks(atTrim[token := record], record.subject, record.createdAt, order)
      requires OnlyDeactivated(atTrim[token := record], atCommit[token := record], record.subject)
      requires Elements(rows) == Elements(Surplus(order, maximumActiveSessions))
      ensures Committed(token, record, atTrim, atCommit, order, rows,
                        Revoked(atCommit[token := record], Elements(rows), record.createdAt))
    {
      OwnCommit(token, record, atTrim, atCommit, order, maximumActiveSessions);
      RevokedColumns(atCommit[token := record], rows, record.createdAt);
      hide RevokedAlone;
      hide Capped;
      hide Active;
      hide Elements;
      hide Revoked;
      hide Ahead;
      hide DistinctIds;
      hide Ranks;
    }

    /** Whether and how the transaction of a creation ends. */
    ghost predicate Commits(token: Token, waited: Table, rows: seq<Token>, fault: Fault) {
      token !in waited && (fault == NoFault || fault == CommitReplyLost || (fault.RowFails? && fault.row >= |rows|))
    }

    /** The transaction, up to its commit; on success the revoked tokens. */
    method Transact(
      token: Token, record: Session, waited: Table, atTrim: Table, atCommit: Table, ghost order: seq<Token>,
      rows: seq<Token>, fault: Fault)
      returns (result: Result<seq<Token>, Error>)
      requires Ranks(atTrim[token := record], record.subject, record.createdAt, order)
      requires Elements(rows) == Elements(Surplus(order, maximumActiveSessions))
      requires OnlyDeactivated(atTrim[token := record], atCommit[token := record], record.subject)
      modifies this`sessions
      ensures result.Ok? <==> token !in waited && (fault == NoFault || (fault.RowFails? && fault.row >= |rows|))
      ensures result == Err(Scan) <==> token !in waited && fault.RowFails? && fault.row < |rows|
      ensures result.Ok? ==> result.value == rows
      ensures result == Err(Conflict) <==>
                fault != BeginFails && fault != LockFails && (token in waited || fault == OtherDuplicate)
      ensures Commits(token, waited, rows, fault) ==> Committed(token, record, atTrim, atCommit, order, rows, sessions)
      ensures !Commits(token, waited, rows, fault) ==>
                sessions == if fault == BeginFails || fault == LockFails then old(sessions)
                            else if token in waited || fault == OtherDuplicate || fault == InsertFails then waited
                            else if fault == CommitFails then atCommit
                            else atTrim
    {
      hide Committed;
      hide Ranks;
      hide Elements;
      hide Surplus;
      hide Revoked;
      hide OnlyDeactivated;
      if fault == BeginFails || fault == LockFails {
        return Err(Database);
      }
      sessions := waited;
      if token in sessions || fault == OtherDuplicate {
        return Err(Conflict);
      }
      if fault == InsertFails {
        return Err(Database);
      }
      sessions := atTrim;
      if fault == UpdateFails {
        return Err(Database);
      }
      result := ReadRevoked(rows, fault);
      if result.Err? {
        return;
      }
      sessions := atCommit;
      if fault == CommitFails {
        return Err(Database);
      }
      CommitsSo(token, record, atTrim, atCommit, order, rows);
      sessions := Revoked(sessions[token := record], Elements(rows), record.createdAt);
      if fault == CommitReplyLost {
        return Err(Database);
      }
    }

    /**
     `waited`, `atTrim` and `atCommit` are the rows others have committed by the time the lock is granted, the
     update starts and the transaction commits; `order` is how the update ranks the subject's active sessions,
     `rows` the revoked tokens as it returns them, and `undeletable` those whose cache deletion fails.  Other
     creations for the subject wait for the lock, so its rows are only deactivated between the statements.
     */
    method Create(
      token: Token, record: Session, waited: Table, atTrim: Table, atCommit: Table, ghost order: seq<Token>,
      rows: seq<Token>, undeletable: set<Token>, fault: Fault)
      returns (result: Result<(), Error>)
      requires Ranks(atTrim[token := record], record.subject, record.createdAt, order)
      requires Distinct(rows) && Elements(rows) == Elements(Surplus(order, maximumActiveSessions))
      requires OnlyDeactivated(atTrim[token := record], atCommit[token := record], record.subject)
      modifies this
      ensures result.Ok? <==> token !in waited && (fault == NoFault || (fault.RowFails? && fault.row >= |rows|))
      ensures result == Err(Scan) <==> token !in waited && fault.RowFails? && fault.row < |rows|
      ensures result == Err(Conflict) <==>
                fault != BeginFails && fault != LockFails && (token in waited || fault == OtherDuplicate)
      ensures Commits(token, waited, rows, fault) ==> Committed(token, record, atTrim, atCommit, order, rows, sessions)
      ensures !Commits(token, waited, rows, fault) ==>
                sessions == if fault == BeginFails || fault == LockFails then old(sessions)
                            else if token in waited || fault == OtherDuplicate || fault == InsertFails then waited
                            else if fault == CommitFails then atCommit
                            else atTrim
      ensures RevokesSurplus(atTrim[token := record], record, rows)
      ensures cache == if result.Ok? then old(cache) - (Elements(rows) - undeletable) else old(cache)
    {
      RowsAreSurplus(atTrim[token := record], record, order, rows);
      hide RevokesSurplus;
      hide Committed;
      hide Commits;
      hide Ranks;
      hide Elements;
      hide Surplus;
      hide OnlyDeactivated;
      var revoked := Transact(token, record, waited, atTrim, atCommit, order, rows, fault);
      if revoked.Err? {
        return Err(revoked.error);
      }
      Invalidate(revoked.value, undeletable);
      result := Ok(());
    }
  }

  /** `rows`, and no others, get their revocation time, and nothing else changes. */
  ghost predicate RevokedAlone(before: Table, after: Table, rows: seq<Token>, at: int) {
    && after.Keys == before.Keys
    && forall token :: token in after ==>
         after[token] == if token in rows then before[token].(revokedAt := Some(at)) else before[token]
  }

  lemma NoMembers(tokens: seq<Token>, others: seq<Token>)
    requires forall token :: token in tokens ==> token in others
    ensures others == [] ==> tokens == []
  {
    if tokens != [] {
      var first := tokens[0];
      assert first in tokens;
    }
  }

  lemma RevokedColumns(table: Table, rows: seq<Token>, at: int)
    ensures RevokedAlone(table, Revoked(table, Elements(rows), at), rows, at)
  {
    forall token ensures token in rows <==> token in Elements(rows) {
    }
  }

  /** What one creation commits: the cap, the kept sessions still active, and when its own is among them. */
  lemma OwnCommit(token: Token, record: Session, atTrim: Table, atCommit: Table, order: seq<Token>, k: nat)
    requires Ranks(atTrim[token := record], record.subject, record.createdAt, order)
    requires OnlyDeactivated(atTrim[token := record], atCommit[token := record], record.subject)
    ensures
      var table, at := atTrim[token := record], record.createdAt;
      var committed := Revoked(atCommit[token := record], Elements(Surplus(order, k)), at);
      && Capped(committed, record.subject, at, k)
      && Active(committed, record.subject, at)
         == Elements(Kept(order, k)) * Active(atCommit[token := record], record.subject, at)
      && (IsActive(record, record.subject, at) && DistinctIds(table, Active(table, record.subject, at)) ==>
            (token in Active(committed, record.subject, at) <==> |Ahead(table, token, at)| < k))
  {
    var table, at := atTrim[token := record], record.createdAt;
    CommittedOver(table, atCommit[token := record], record.subject, at, order, k);
    KeepsExactly(table, record.subject, at, order, k);
    if IsActive(record, record.subject, at) && DistinctIds(table, Active(table, record.subject, at)) {
      KeepsOwn(table, token, at, order, k);
      assert token in Active(atCommit[token := record], record.subject, at);
    }
    hide Elements;
    hide Surplus;
    hide Kept;
    hide Ranks;
    hide Capped;
    hide Revoked;
    hide Ahead;
    hide OnlyDeactivated;
  }

  lemma ElementsAppend(tokens: seq<Token>, token: Token)
    ensures Elements(tokens + [token]) == Elements(tokens) + {token}
  {
    var all := tokens + [token];
    assert forall i :: 0 <= i < |tokens| ==> all[i] == tokens[i];
    assert all[|tokens|] == token;
  }
}
