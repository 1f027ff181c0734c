/**
 The session cap: what one transaction of `Create` does, and why the cap survives any number of
 them interleaved statement by statement across API instances.
 */
module Sessions {
  import opened Wrappers

  type Token = string

  datatype Session = Session(id: int, subject: string, createdAt: int, expiresAt: int, revokedAt: Option<int>)

  type Table = map<Token, Session>

  predicate IsActive(row: Session, subject: string, t: int) {
    row.subject == subject && row.revokedAt == None && row.expiresAt > t
  }

  function Active(table: Table, subject: string, t: int): set<Token> {
    set token | token in table && IsActive(table[token], subject, t)
  }

  /** `ORDER BY created_at DESC, id DESC` may put `a` before `b`. */
  predicate NoOlder(a: Session, b: Session) {
    a.createdAt > b.createdAt || (a.createdAt == b.createdAt && a.id >= b.id)
  }

  predicate Distinct(tokens: seq<Token>) {
    forall i, j :: 0 <= i < j < |tokens| ==> tokens[i] != tokens[j]
  }

  function Elements(tokens: seq<Token>): set<Token> { set i | 0 <= i < |tokens| :: tokens[i] }

  /** `order` is an answer the database may give to the subquery before its offset is applied. */
  ghost predicate Ranks(table: Table, subject: string, t: int, order: seq<Token>) {
    && Distinct(order)
    && Elements(order) == Active(table, subject, t)
    && forall i, j :: 0 <= i < j < |order| ==>
         order[i] in table && order[j] in table && NoOlder(table[order[i]], table[order[j]])
  }

  /** What is left of the answer after `OFFSET k`. */
  function Surplus(order: seq<Token>, k: nat): seq<Token> {
    if |order| <= k then [] else order[k..]
  }

  function Kept(order: seq<Token>, k: nat): seq<Token> {
    if |order| <= k then order else order[..k]
  }

  function Revoked(table: Table, tokens: set<Token>, at: int): Table {
    map token | token in table :: if token in tokens then table[token].(revokedAt := Some(at)) else table[token]
  }

  lemma {:induction false} ElementsSize(tokens: seq<Token>)
    ensures |Elements(tokens)| <= |tokens|
    ensures Distinct(tokens) ==> |Elements(tokens)| == |tokens|
  {
    if tokens == [] {
      assert Elements(tokens) == {};
    } else {
      var init, last := tokens[..|tokens| - 1], tokens[|tokens| - 1];
      ElementsSize(init);
      assert forall i :: 0 <= i < |init| ==> init[i] == tokens[i];
      assert Elements(tokens) == Elements(init) + {last};
    }
  }

  lemma SubsetSize(a: set<Token>, b: set<Token>)
    requires a <= b
    ensures |a| <= |b|
  {
    assert b == a + (b - a);
  }

  lemma SplitElements(order: seq<Token>, k: nat)
    requires Distinct(order)
    ensures Elements(order) == Elements(Kept(order, k)) + Elements(Surplus(order, k))
    ensures Elements(Kept(order, k)) !! Elements(Surplus(order, k))
  {
    var kept, dropped := Kept(order, k), Surplus(order, k);
    forall token | token in Elements(order) ensures token in Elements(kept) + Elements(dropped) {
      var i :| 0 <= i < |order| && order[i] == token;
      assert if i < k then kept[i] == token else dropped[i - k] == token;
    }
  }

  /**
   The revocation leaves exactly the newest `k` active sessions and changes no row that was not active.
   */
  lemma KeepsExactly(table: Table, subject: string, t: int, order: seq<Token>, k: nat)
    requires Ranks(table, subject, t, order)
    ensures
      var after := Revoked(table, Elements(Surplus(order, k)), t);
      && Active(after, subject, t) == Elements(Kept(order, k))
      && |Active(after, subject, t)| == (if |Active(table, subject, t)| <= k then |Active(table, subject, t)| else k)
      && (forall token :: token in table && token !in Active(table, subject, t) ==> after[token] == table[token])
  {
    SplitElements(order, k);
    ElementsSize(order);
    ElementsSize(Kept(order, k));
    hide Elements;
  }

  /** No session it keeps is older than one it drops. */
  lemma KeepsNewest(table: Table, subject: string, t: int, order: seq<Token>, k: nat, keep: Token, drop: Token)
    requires Ranks(table, subject, t, order)
    requires var after := Revoked(table, Elements(Surplus(order, k)), t);
             keep in Active(after, subject, t) && drop in Active(table, subject, t) - Active(after, subject, t)
    ensures table[keep].createdAt > table[drop].createdAt
            || (table[keep].createdAt == table[drop].createdAt && table[keep].id >= table[drop].id)
  {
    KeepsExactly(table, subject, t, order, k);
    SplitElements(order, k);
    assert keep in Elements(Kept(order, k)) && drop in Elements(Surplus(order, k));
    var i, j := KeptBeforeDropped(order, k, keep, drop);
  }

  lemma KeptBeforeDropped(order: seq<Token>, k: nat, keep: Token, drop: Token) returns (i: nat, j: nat)
    requires keep in Elements(Kept(order, k)) && drop in Elements(Surplus(order, k))
    ensures i < j < |order| && order[i] == keep && order[j] == drop
  {
    i :| 0 <= i < |Kept(order, k)| && Kept(order, k)[i] == keep;
    var d :| 0 <= d < |Surplus(order, k)| && Surplus(order, k)[d] == drop;
    j := k + d;
  }

  /** A new active session created strictly after every other is among the kept ones. */
  lemma KeepsStrictlyLatest(table: Table, token: Token, t: int, order: seq<Token>, k: nat)
    requires token in table && IsActive(table[token], table[token].subject, t) && k >= 1
    requires Ranks(table, table[token].subject, t, order)
    requires forall other :: other in Active(table, table[token].subject, t) && other != token
               ==> table[other].createdAt < table[token].createdAt
    ensures token in Active(Revoked(table, Elements(Surplus(order, k)), t), table[token].subject, t)
  {
    KeepsExactly(table, table[token].subject, t, order, k);
    assert token in Elements(order);
    var i :| 0 <= i < |order| && order[i] == token;
    assert order[0] in Elements(order);
    assert Kept(order, k)[0] == token;
  }

  /** The subject's other active sessions that rank before `token`. */
  function Ahead(table: Table, token: Token, t: int): set<Token>
    requires token in table
  {
    set other | other in Active(table, table[token].subject, t) && other != token && NoOlder(table[other], table[token])
  }

  ghost predicate DistinctIds(table: Table, tokens: set<Token>) {
    forall a, b :: a in tokens && b in tokens && a in table && b in table && table[a].id == table[b].id ==> a == b
  }

  lemma AheadIsPrefix(table: Table, token: Token, t: int, order: seq<Token>, i: nat)
    requires token in table && Ranks(table, table[token].subject, t, order)
    requires DistinctIds(table, Active(table, table[token].subject, t))
    requires i < |order| && order[i] == token
    ensures |Ahead(table, token, t)| == i
  {
    var before := order[..i];
    forall other | other in Ahead(table, token, t) ensures other in Elements(before) {
      assert other in Elements(order);
      var j :| 0 <= j < |order| && order[j] == other;
      assert token in Elements(order);
      assert i < j ==> NoOlder(table[token], table[other]);
      assert before[j] == other;
    }
    forall other | other in Elements(before) ensures other in Ahead(table, token, t) {
      var j :| 0 <= j < |before| && before[j] == other;
      assert order[j] == other && other in Elements(order);
    }
    assert Elements(before) == Ahead(table, token, t);
    ElementsSize(before);
  }

  lemma KeptIndex(order: seq<Token>, k: nat, i: nat)
    requires Distinct(order) && i < |order|
    ensures order[i] in Elements(Kept(order, k)) <==> i < k
  {
    if i < k {
      assert Kept(order, k)[i] == order[i];
    } else {
      assert Surplus(order, k)[i - k] == order[i];
      SplitElements(order, k);
    }
  }

  lemma RankOf(table: Table, token: Token, t: int, order: seq<Token>) returns (i: nat)
    requires token in table && IsActive(table[token], table[token].subject, t)
    requires Ranks(table, table[token].subject, t, order)
    ensures i < |order| && order[i] == token
  {
    assert token in Elements(order);
    i :| 0 <= i < |order| && order[i] == token;
  }

  /** An active session survives the revocation exactly when fewer than `k` others rank before it. */
  lemma KeepsOwn(table: Table, token: Token, t: int, order: seq<Token>, k: nat)
    requires token in table && IsActive(table[token], table[token].subject, t)
    requires Ranks(table, table[token].subject, t, order)
    requires DistinctIds(table, Active(table, table[token].subject, t))
    ensures token in Active(Revoked(table, Elements(Surplus(order, k)), t), table[token].subject, t)
            <==> |Ahead(table, token, t)| < k
  {
    hide Active;
    hide Elements;
    hide Revoked;
    hide Ahead;
    hide DistinctIds;
    hide Surplus;
    hide Kept;
    KeepsExactly(table, table[token].subject, t, order, k);
    var i := RankOf(table, token, t, order);
    AheadIsPrefix(table, token, t, order, i);
    KeptIndex(order, k, i);
  }

  /** From `t` on no instant finds more active sessions than `t` does. */
  lemma ActiveShrinks(table: Table, subject: string, t: int, later: int)
    requires t <= later
    ensures Active(table, subject, later) <= Active(table, subject, t)
  {
  }

  /** The subject has at most `k` active sessions at every instant from `from` on. */
  ghost predicate Capped(table: Table, subject: string, from: int, k: nat) {
    forall t :: from <= t ==> |Active(table, subject, t)| <= k
  }

  lemma TrimmedCap(table: Table, subject: string, at: int, order: seq<Token>, k: nat)
    requires Ranks(table, subject, at, order)
    ensures Capped(Revoked(table, Elements(Surplus(order, k)), at), subject, at, k)
  {
    var after := Revoked(table, Elements(Surplus(order, k)), at);
    KeepsExactly(table, subject, at, order, k);
    forall t | at <= t ensures |Active(after, subject, t)| <= k {
      ActiveShrinks(after, subject, at, t);
      SubsetSize(Active(after, subject, t), Active(after, subject, at));
    }
  }

  // ----- the revocation by its columns -----

  /** Rows of other subjects, revoked rows and expired ones are never ranked, let alone revoked. */
  lemma RankedColumns(table: Table, subject: string, t: int, order: seq<Token>)
    requires Ranks(table, subject, t, order)
    ensures forall token :: token in order <==>
              && token in table && table[token].subject == subject && table[token].revokedAt == None
              && table[token].expiresAt > t
  {
    forall token ensures token in order <==> token in Elements(order) {
    }
  }

  /** With at most `k` rows of the subject unrevoked and unexpired, nothing is revoked. */
  lemma FewAreKept(table: Table, subject: string, t: int, order: seq<Token>, k: nat)
    requires Ranks(table, subject, t, order)
    requires |set token | token in table && table[token].subject == subject && table[token].revokedAt == None
                          && table[token].expiresAt > t| <= k
    ensures Surplus(order, k) == [] && Revoked(table, Elements(Surplus(order, k)), t) == table
  {
    var unexpired := set token | token in table && table[token].subject == subject && table[token].revokedAt == None
                                 && table[token].expiresAt > t;
    assert unexpired == Active(table, subject, t);
    ElementsSize(order);
  }

  /** The rows of the subject that are unrevoked and unexpired and sort before `token` by (created_at, id) descending. */
  ghost function Newer(table: Table, token: Token, t: int): set<Token>
    requires token in table
  {
    set other | other in table && other != token && table[other].subject == table[token].subject
                && table[other].revokedAt == None && table[other].expiresAt > t
                && (table[other].createdAt > table[token].createdAt
                    || (table[other].createdAt == table[token].createdAt && table[other].id > table[token].id))
  }

  /** Exactly the subject's unrevoked and unexpired rows with `k` or more such rows newer are revoked, at `t`. */
  lemma RevokesByColumns(table: Table, subject: string, t: int, order: seq<Token>, k: nat, token: Token)
    requires Ranks(table, subject, t, order) && token in table
    requires forall a, b :: a in table && b in table && table[a].id == table[b].id ==> a == b
    ensures token in Surplus(order, k) <==>
              && table[token].subject == subject && table[token].revokedAt == None && table[token].expiresAt > t
              && |Newer(table, token, t)| >= k
    ensures Revoked(table, Elements(Surplus(order, k)), t)[token]
            == if token in Surplus(order, k) then table[token].(revokedAt := Some(t)) else table[token]
  {
    RankedColumns(table, subject, t, order);
    assert token in Surplus(order, k) <==> token in Elements(Surplus(order, k));
    assert token in Surplus(order, k) ==> token in order;
    if token in order {
      assert Newer(table, token, t) == Ahead(table, token, t);
      SurplusOrKept(table, subject, t, order, k, token);
    }
  }

  lemma SurplusOrKept(table: Table, subject: string, t: int, order: seq<Token>, k: nat, token: Token)
    requires Ranks(table, subject, t, order) && token in order && token in table && table[token].subject == subject
    requires DistinctIds(table, Active(table, subject, t))
    ensures token in Elements(Surplus(order, k)) <==> |Ahead(table, token, t)| >= k
  {
    var i :| 0 <= i < |order| && order[i] == token;
    AheadIsPrefix(table, token, t, order, i);
    SplitElements(order, k);
    KeptIndex(order, k, i);
    assert token in Elements(order);
    hide Elements;
    hide Ahead;
    hide Ranks;
  }

  /** Between two statements of a lock holder, others leave its subject's rows as they are or deactivate them. */
  predicate OnlyDeactivated(before: Table, after: Table, subject: string) {
    forall token :: token in after && after[token].subject == subject && after[token].revokedAt == None
      ==> token in before && before[token] == after[token]
  }

  /** Committed over what others have left by then, the revocation leaves of the kept sessions those still active. */
  lemma CommittedOver(before: Table, after: Table, subject: string, at: int, order: seq<Token>, k: nat)
    requires Ranks(before, subject, at, order) && OnlyDeactivated(before, after, subject)
    ensures
      var committed := Revoked(after, Elements(Surplus(order, k)), at);
      && Active(committed, subject, at) == Elements(Kept(order, k)) * Active(after, subject, at)
      && Capped(committed, subject, at, k)
  {
    var committed := Revoked(after, Elements(Surplus(order, k)), at);
    var trimmed := Revoked(before, Elements(Surplus(order, k)), at);
    KeepsExactly(before, subject, at, order, k);
    TrimmedCap(before, subject, at, order, k);
    hide Elements;
    hide Surplus;
    hide Kept;
    hide Ranks;
    hide Capped;
    CappedSubset(trimmed, committed, subject, at, k);
    assert Active(committed, subject, at) == Active(trimmed, subject, at) * Active(after, subject, at);
  }

  // ----- interleaved transactions -----

  /** How far a transaction has come.  `Trimmed` holds the revocations it has not committed yet. */
  datatype Phase = Begun | Locked | Inserted | Trimmed(revoked: set<Token>) | Committed | Failed

  datatype Tx = Tx(token: Token, record: Session, phase: Phase)

  /**
   Committed rows, the holders of the advisory locks, the transactions, and for every subject the
   creation time carried by its latest commit.
   */
  datatype System = System(
    table: Table,
    locks: map<int, nat>,
    txs: map<nat, Tx>,
    lastCommit: map<string, int>)

  /** `hash` is the database's text hash; different subjects may share a lock. */
  datatype Config = Config(hash: string -> int, maximum: nat)

  predicate Holding(tx: Tx) {
    tx.phase.Locked? || tx.phase.Inserted? || tx.phase.Trimmed?
  }

  predicate Pending(tx: Tx) {
    tx.phase.Inserted? || tx.phase.Trimmed?
  }

  /** What a statement of the transaction reads: every row committed so far and its own insert. */
  function Snapshot(s: System, tx: Tx): Table {
    s.table[tx.token := tx.record]
  }

  function Enter(s: System, id: nat, phase: Phase): System
    requires id in s.txs
  {
    s.(txs := s.txs[id := s.txs[id].(phase := phase)])
  }

  /** The transaction ends and the server releases its lock. */
  function End(c: Config, s: System, id: nat, phase: Phase): System
    requires id in s.txs
  {
    var done := Enter(s, id, phase);
    if Holding(s.txs[id]) then done.(locks := s.locks - {c.hash(s.txs[id].record.subject)}) else done
  }

  predicate Begin(s: System, s': System, id: nat, token: Token, record: Session) {
    id !in s.txs && s' == s.(txs := s.txs[id := Tx(token, record, Begun)])
  }

  /** Enabled only while nobody holds the lock: otherwise the statement waits. */
  predicate Lock(c: Config, s: System, s': System, id: nat) {
    && id in s.txs && s.txs[id].phase == Begun
    && var key := c.hash(s.txs[id].record.subject);
       key !in s.locks && s' == Enter(s, id, Locked).(locks := s.locks[key := id])
  }

  /** An insert waits for any other uncommitted insert of the same token. */
  predicate Insert(s: System, s': System, id: nat) {
    && id in s.txs && s.txs[id].phase == Locked
    && s.txs[id].token !in s.table
    && (forall other :: other in s.txs && Pending(s.txs[other]) ==> s.txs[other].token != s.txs[id].token)
    && s' == Enter(s, id, Inserted)
  }

  /** The update reads its own snapshot, taken when the statement starts. */
  ghost predicate Trim(c: Config, s: System, s': System, id: nat, order: seq<Token>) {
    && id in s.txs && s.txs[id].phase == Inserted
    && var tx := s.txs[id];
       && Ranks(Snapshot(s, tx), tx.record.subject, tx.record.createdAt, order)
       && s' == Enter(s, id, Trimmed(Elements(Surplus(order, c.maximum))))
  }

  predicate Commit(c: Config, s: System, s': System, id: nat) {
    && id in s.txs && s.txs[id].phase.Trimmed?
    && var tx := s.txs[id];
       s' == End(c, s, id, Committed).(
         table := Revoked(Snapshot(s, tx), tx.phase.revoked, tx.record.createdAt),
         lastCommit := s.lastCommit[tx.record.subject := tx.record.createdAt])
  }

  /** A conflict on insert, a failed statement or a lost connection: nothing was committed. */
  predicate Abort(c: Config, s: System, s': System, id: nat) {
    && id in s.txs && !s.txs[id].phase.Committed? && !s.txs[id].phase.Failed?
    && s' == End(c, s, id, Failed)
  }

  /** Sign-out and its like: outside `Create`, sessions are only ever deactivated. */
  predicate Deactivate(s: System, s': System) {
    && s' == s.(table := s'.table)
    && s'.table.Keys == s.table.Keys
    && forall token :: token in s.table ==>
         || s'.table[token] == s.table[token]
         || (s'.table[token].revokedAt.Some?
             && s'.table[token] == s.table[token].(revokedAt := s'.table[token].revokedAt))
  }

  ghost predicate Step(c: Config, s: System, s': System) {
    || Deactivate(s, s')
    || (exists id, token, record :: Begin(s, s', id, token, record))
    || (exists id :: Lock(c, s, s', id))
    || (exists id :: Insert(s, s', id))
    || (exists id, order :: Trim(c, s, s', id, order))
    || (exists id :: Commit(c, s, s', id))
    || (exists id :: Abort(c, s, s', id))
  }

  /** The table may start with anything. */
  predicate Initial(s: System) {
    s.locks == map[] && s.txs == map[] && s.lastCommit == map[]
  }

  // ----- the invariant -----

  ghost predicate LocksHeld(c: Config, s: System) {
    forall id :: id in s.txs && Holding(s.txs[id]) ==>
      c.hash(s.txs[id].record.subject) in s.locks && s.locks[c.hash(s.txs[id].record.subject)] == id
  }

  ghost predicate FreshInserts(s: System) {
    && (forall id :: id in s.txs && Pending(s.txs[id]) ==> s.txs[id].token !in s.table)
    && (forall id, other :: id in s.txs && other in s.txs && id != other && Pending(s.txs[id]) && Pending(s.txs[other])
          ==> s.txs[id].token != s.txs[other].token)
  }

  /** What the transaction is about to commit already respects the cap. */
  ghost predicate TrimmedReady(c: Config, s: System) {
    forall id :: id in s.txs && s.txs[id].phase.Trimmed? ==>
      var tx := s.txs[id];
      Capped(Revoked(Snapshot(s, tx), tx.phase.revoked, tx.record.createdAt),
             tx.record.subject, tx.record.createdAt, c.maximum)
  }

  ghost predicate CommittedCap(c: Config, s: System) {
    forall subject :: subject in s.lastCommit ==> Capped(s.table, subject, s.lastCommit[subject], c.maximum)
  }

  ghost predicate Inv(c: Config, s: System) {
    LocksHeld(c, s) && FreshInserts(s) && TrimmedReady(c, s) && CommittedCap(c, s)
  }

  lemma CappedSubset(table: Table, table': Table, subject: string, from: int, k: nat)
    requires Capped(table, subject, from, k)
    requires forall token :: token in table' && table'[token].subject == subject && table'[token].revokedAt == None
               ==> token in table && table[token] == table'[token]
    ensures Capped(table', subject, from, k)
  {
    forall t | from <= t ensures |Active(table', subject, t)| <= k {
      SubsetSize(Active(table', subject, t), Active(table, subject, t));
    }
  }

  /** Rows only deactivated, or added for other subjects, keep every other transaction's promise. */
  lemma OthersStayReady(c: Config, s: System, s': System, subject: Option<string>)
    requires TrimmedReady(c, s) && CommittedCap(c, s) && FreshInserts(s)
    requires forall token :: token in s'.table && s'.table[token].revokedAt == None ==>
               (token in s.table && s.table[token] == s'.table[token]) || subject == Some(s'.table[token].subject)
    ensures forall id :: id in s.txs && s.txs[id].phase.Trimmed? && subject != Some(s.txs[id].record.subject) ==>
              var tx := s.txs[id];
              Capped(Revoked(Snapshot(s', tx), tx.phase.revoked, tx.record.createdAt),
                     tx.record.subject, tx.record.createdAt, c.maximum)
    ensures forall other :: other in s.lastCommit && subject != Some(other) ==>
              Capped(s'.table, other, s.lastCommit[other], c.maximum)
  {
    forall id | id in s.txs && s.txs[id].phase.Trimmed? && subject != Some(s.txs[id].record.subject)
      ensures var tx := s.txs[id];
              Capped(Revoked(Snapshot(s', tx), tx.phase.revoked, tx.record.createdAt),
                     tx.record.subject, tx.record.createdAt, c.maximum)
    {
      var tx := s.txs[id];
      CappedSubset(Revoked(Snapshot(s, tx), tx.phase.revoked, tx.record.createdAt),
                   Revoked(Snapshot(s', tx), tx.phase.revoked, tx.record.createdAt),
                   tx.record.subject, tx.record.createdAt, c.maximum);
    }
    forall other | other in s.lastCommit && subject != Some(other)
      ensures Capped(s'.table, other, s.lastCommit[other], c.maximum)
    {
      CappedSubset(s.table, s'.table, other, s.lastCommit[other], c.maximum);
    }
  }

  lemma CommitKeeps(c: Config, s: System, s': System, id: nat)
    requires Inv(c, s) && Commit(c, s, s', id)
    ensures Inv(c, s')
  {
    var subject := s.txs[id].record.subject;
    OthersStayReady(c, s, s', Some(subject));
    forall other | other in s'.txs && s'.txs[other].phase.Trimmed?
      ensures s.txs[other].record.subject != subject
    {
      assert Holding(s.txs[other]) && Holding(s.txs[id]);
    }
    assert forall token :: token in s'.table && token !in s.table ==> token == s.txs[id].token;
  }

  lemma TrimKeeps(c: Config, s: System, s': System, id: nat, order: seq<Token>)
    requires Inv(c, s) && Trim(c, s, s', id, order)
    ensures Inv(c, s')
  {
    var tx := s.txs[id];
    TrimmedCap(Snapshot(s, tx), tx.record.subject, tx.record.createdAt, order, c.maximum);
    assert Snapshot(s', s'.txs[id]) == Snapshot(s, tx);
  }

  lemma LockKeeps(c: Config, s: System, s': System, id: nat)
    requires Inv(c, s) && Lock(c, s, s', id)
    ensures Inv(c, s')
  {
    hide Capped;
    hide Revoked;
  }

  lemma InsertKeeps(c: Config, s: System, s': System, id: nat)
    requires Inv(c, s) && Insert(s, s', id)
    ensures Inv(c, s')
  {
    hide Capped;
    hide Revoked;
  }

  lemma AbortKeeps(c: Config, s: System, s': System, id: nat)
    requires Inv(c, s) && Abort(c, s, s', id)
    ensures Inv(c, s')
  {
    hide Capped;
    hide Revoked;
    forall other | other in s'.txs && Holding(s'.txs[other])
      ensures c.hash(s'.txs[other].record.subject) in s'.locks && s'.locks[c.hash(s'.txs[other].record.subject)] == other
    {
      assert Holding(s.txs[other]);
    }
  }

  lemma BeginKeeps(c: Config, s: System, s': System, id: nat, token: Token, record: Session)
    requires Inv(c, s) && Begin(s, s', id, token, record)
    ensures Inv(c, s')
  {
    hide Capped;
    hide Revoked;
  }

  lemma DeactivateKeeps(c: Config, s: System, s': System)
    requires Inv(c, s) && Deactivate(s, s')
    ensures Inv(c, s')
  {
    OthersStayReady(c, s, s', None);
    hide Capped;
    hide Revoked;
  }

  lemma StepKeeps(c: Config, s: System, s': System)
    requires Inv(c, s) && Step(c, s, s')
    ensures Inv(c, s')
  {
    hide Inv;
    if Deactivate(s, s') {
      DeactivateKeeps(c, s, s');
    } else if id, token, record :| Begin(s, s', id, token, record) {
      BeginKeeps(c, s, s', id, token, record);
    } else if id :| Lock(c, s, s', id) {
      LockKeeps(c, s, s', id);
    } else if id :| Insert(s, s', id) {
      InsertKeeps(c, s, s', id);
    } else if id, order :| Trim(c, s, s', id, order) {
      TrimKeeps(c, s, s', id, order);
    } else if id :| Commit(c, s, s', id) {
      CommitKeeps(c, s, s', id);
    } else {
      var id :| Abort(c, s, s', id);
      AbortKeeps(c, s, s', id);
    }
  }

  ghost predicate Run(c: Config, states: seq<System>) {
    && states != [] && Initial(states[0])
    && forall i :: 0 <= i < |states| - 1 ==> Step(c, states[i], states[i + 1])
  }

  lemma {:induction false} RunKeeps(c: Config, states: seq<System>, n: nat)
    requires Run(c, states) && n < |states|
    ensures Inv(c, states[n])
  {
    if n > 0 {
      RunKeeps(c, states, n - 1);
      StepKeeps(c, states[n - 1], states[n]);
    }
  }

  /**
   Session cap: in every interleaving and whatever the table held at first, once a subject has had a
   commit, every later state gives it at most the maximum of active sessions at every instant from
   that commit's creation time on.
   */
  lemma SessionCap(c: Config, states: seq<System>, n: nat, subject: string, t: int)
    requires Run(c, states) && n < |states|
    requires subject in states[n].lastCommit && states[n].lastCommit[subject] <= t
    ensures |set token | token in states[n].table && states[n].table[token].subject == subject
                         && states[n].table[token].revokedAt == None && states[n].table[token].expiresAt > t|
            <= c.maximum
  {
    RunKeeps(c, states, n);
    assert Active(states[n].table, subject, t)
           == set token | token in states[n].table && states[n].table[token].subject == subject
                          && states[n].table[token].revokedAt == None && states[n].table[token].expiresAt > t;
  }

  // ----- a creation overtaken while it waits -----

  lemma Extends(c: Config, states: seq<System>, s': System)
    requires Run(c, states) && Step(c, states[|states| - 1], s')
    ensures Run(c, states + [s'])
  {
    hide Step;
    var more := states + [s'];
    forall i | 0 <= i < |more| - 1 ensures Step(c, more[i], more[i + 1]) {
      assert more[i] == states[i];
    }
  }

  /** The state an uninterrupted creation commits. */
  function Concluded(c: Config, s: System, id: nat, order: seq<Token>): System
    requires id in s.txs
  {
    var tx := s.txs[id];
    s.(txs := s.txs[id := tx.(phase := Committed)],
       table := Revoked(Snapshot(s, tx), Elements(Surplus(order, c.maximum)), tx.record.createdAt),
       lastCommit := s.lastCommit[tx.record.subject := tx.record.createdAt])
  }

  /** `id` has begun, its lock is free, its token unused, and nobody has inserted. */
  ghost predicate MayRun(c: Config, s: System, id: nat, order: seq<Token>) {
    && id in s.txs && s.txs[id].phase == Begun
    && c.hash(s.txs[id].record.subject) !in s.locks && s.txs[id].token !in s.table
    && (forall other :: other in s.txs ==> !Pending(s.txs[other]))
    && Ranks(Snapshot(s, s.txs[id]), s.txs[id].record.subject, s.txs[id].record.createdAt, order)
  }

  function Held(c: Config, s: System, id: nat, phase: Phase): System
    requires id in s.txs
  {
    Enter(s, id, phase).(locks := s.locks[c.hash(s.txs[id].record.subject) := id])
  }

  lemma LockAndInsert(c: Config, s: System, id: nat, order: seq<Token>)
    requires MayRun(c, s, id, order)
    ensures Step(c, s, Held(c, s, id, Locked)) && Step(c, Held(c, s, id, Locked), Held(c, s, id, Inserted))
  {
    hide Ranks;
    assert Lock(c, s, Held(c, s, id, Locked), id);
    assert Held(c, s, id, Inserted) == Enter(Held(c, s, id, Locked), id, Inserted);
    assert Insert(Held(c, s, id, Locked), Held(c, s, id, Inserted), id);
    hide Step;
  }

  lemma TrimAndCommit(c: Config, s: System, id: nat, order: seq<Token>)
    requires MayRun(c, s, id, order)
    ensures var trimmed := Held(c, s, id, Trimmed(Elements(Surplus(order, c.maximum))));
            Step(c, Held(c, s, id, Inserted), trimmed) && Step(c, trimmed, Concluded(c, s, id, order))
  {
    hide Ranks;
    hide Elements;
    var trimmed := Held(c, s, id, Trimmed(Elements(Surplus(order, c.maximum))));
    assert trimmed == Enter(Held(c, s, id, Inserted), id, Trimmed(Elements(Surplus(order, c.maximum))));
    assert Trim(c, Held(c, s, id, Inserted), trimmed, id, order);
    assert trimmed.locks - {c.hash(s.txs[id].record.subject)} == s.locks;
    assert Commit(c, trimmed, Concluded(c, s, id, order), id);
  }

  /** A creation that has begun can lock, insert, trim and commit while everybody else stands still. */
  lemma Uninterrupted(c: Config, states: seq<System>, id: nat, order: seq<Token>) returns (more: seq<System>)
    requires Run(c, states) && MayRun(c, states[|states| - 1], id, order)
    ensures Run(c, more) && states <= more && more[|more| - 1] == Concluded(c, states[|states| - 1], id, order)
  {
    var s := states[|states| - 1];
    var locked, inserted := Held(c, s, id, Locked), Held(c, s, id, Inserted);
    var trimmed, committed := Held(c, s, id, Trimmed(Elements(Surplus(order, c.maximum)))), Concluded(c, s, id, order);
    LockAndInsert(c, s, id, order);
    TrimAndCommit(c, s, id, order);
    hide Step;
    hide Held;
    hide Concluded;
    hide Run;
    hide Elements;
    Extends(c, states, locked);
    Extends(c, states + [locked], inserted);
    Extends(c, states + [locked] + [inserted], trimmed);
    Extends(c, states + [locked] + [inserted] + [trimmed], committed);
    more := states + [locked] + [inserted] + [trimmed] + [committed];
  }

  const OWN := Session(1, "s", 10, 99, None)
  const NEWER := Session(2, "s", 20, 99, None)

  const BOTH: System := System(
    map[], map[], map[0 := Tx("own", OWN, Begun), 1 := Tx("newer", NEWER, Begun)], map[])

  const OVERTAKEN: System := System(
    map["newer" := NEWER], map[], map[0 := Tx("own", OWN, Begun), 1 := Tx("newer", NEWER, Committed)], map["s" := 20])

  const ENDED: System := System(
    map["own" := OWN.(revokedAt := Some(10)), "newer" := NEWER], map[],
    map[0 := Tx("own", OWN, Committed), 1 := Tx("newer", NEWER, Committed)], map["s" := 10])

  lemma NewerFirst(c: Config)
    requires c.maximum == 1
    ensures MayRun(c, BOTH, 1, ["newer"]) && Concluded(c, BOTH, 1, ["newer"]) == OVERTAKEN
  {
    assert Snapshot(BOTH, BOTH.txs[1]) == map["newer" := NEWER];
    assert Active(map["newer" := NEWER], "s", 20) == {"newer"};
    assert Elements(["newer"]) == {["newer"][0]};
    assert Elements(Surplus(["newer"], 1)) == {};
  }

  lemma OwnSecond(c: Config)
    requires c.maximum == 1
    ensures MayRun(c, OVERTAKEN, 0, ["newer", "own"]) && Concluded(c, OVERTAKEN, 0, ["newer", "own"]) == ENDED
  {
    var order := ["newer", "own"];
    var table: Table := map["newer" := NEWER, "own" := OWN];
    assert "newer"[0] != "own"[0];
    assert Snapshot(OVERTAKEN, OVERTAKEN.txs[0]) == table;
    assert Active(table, "s", 10) == {"newer", "own"};
    assert Elements(order) == {order[0], order[1]};
    assert Surplus(order, 1) == ["own"] && Elements(["own"]) == {["own"][0]};
    assert Revoked(table, {"own"}, 10) == ENDED.table;
  }

  lemma BothBegin(c: Config) returns (states: seq<System>)
    ensures Run(c, states) && |states| == 3 && states[0].table == map[] && states[2] == BOTH
  {
    var s0 := System(map[], map[], map[], map[]);
    var s1 := s0.(txs := map[0 := Tx("own", OWN, Begun)]);
    assert Begin(s0, s1, 0, "own", OWN) && Begin(s1, BOTH, 1, "newer", NEWER);
    assert Run(c, [s0]);
    assert Step(c, s0, s1) && Step(c, s1, BOTH);
    hide Step;
    hide Run;
    Extends(c, [s0], s1);
    Extends(c, [s0] + [s1], BOTH);
    states := [s0] + [s1] + [BOTH];
  }

  /**
   The creation time is read before the lock is waited for.  Here a creation begins first, a newer one takes
   the lock before it and commits, and the first then commits, and so succeeds, with its own session revoked.
   */
  lemma OvertakenCreation(c: Config) returns (states: seq<System>)
    requires c.maximum == 1
    ensures Run(c, states) && |states| >= 3 && states[0].table == map[]
    ensures states[2].txs == map[0 := Tx("own", OWN, Begun), 1 := Tx("newer", NEWER, Begun)]
    ensures var last := states[|states| - 1];
            && last.txs == map[0 := Tx("own", OWN, Committed), 1 := Tx("newer", NEWER, Committed)]
            && last.table == map["own" := OWN.(revokedAt := Some(10)), "newer" := NEWER]
  {
    var begun := BothBegin(c);
    NewerFirst(c);
    OwnSecond(c);
    hide MayRun;
    hide Concluded;
    hide Run;
    var overtaken := Uninterrupted(c, begun, 1, ["newer"]);
    states := Uninterrupted(c, overtaken, 0, ["newer", "own"]);
    assert states[0] == begun[0] && states[2] == begun[2];
  }
}
