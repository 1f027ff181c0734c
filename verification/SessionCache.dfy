/** The session cache: its jitter, and how stale a hit can be when nothing is ever deleted from it. */
module SessionCache {
  import opened Wrappers
  import opened Sessions

  const MAXIMUM_JITTER := 10

  /** `draw` is the random word, missing when the random source fails. */
  function JitteredTTL(ttl: int, draw: Option<nat>): int {
    if ttl <= 0 || draw == None then ttl
    else ttl - ttl * (draw.value % (MAXIMUM_JITTER + 1)) / 100
  }

  /** Jitter only shortens, by at most a tenth, and reaches both ends of that range. */
  lemma JitterRange(ttl: int, draw: Option<nat>)
    ensures ttl > 0 ==> 0 < ttl - ttl / 10 <= JitteredTTL(ttl, draw) <= ttl
    ensures ttl > 0 && draw.Some? ==>
              var cut := ttl - JitteredTTL(ttl, draw);
              100 * cut <= ttl * (draw.value % 11) < 100 * cut + 100
    ensures ttl > 0 && draw == None ==> JitteredTTL(ttl, draw) == ttl
    ensures ttl <= 0 ==> JitteredTTL(ttl, draw) == ttl
    ensures ttl > 0 ==> JitteredTTL(ttl, Some(10)) == ttl - ttl / 10 && JitteredTTL(ttl, Some(0)) == ttl
  {
    if ttl > 0 && draw.Some? {
      var percent := draw.value % (MAXIMUM_JITTER + 1);
      assert 0 <= ttl * percent <= ttl * 10;
    }
  }

  // ----- fills, deletions that may fail, and staleness -----

  /** What has happened, in order: a store read, a `Set` with its requested lifetime, a revocation. */
  datatype Event =
    | ReadRow(token: Token, row: Session)
    | SetEntry(token: Token, ttl: int, at: int)
    | RevokeRow(token: Token)

  /** A row read from the store and not yet put into the cache; `read` is the position of its read. */
  datatype Fill = Fill(token: Token, row: Session, read: nat)

  datatype Entry = Entry(row: Session, expiresAt: int, read: nat, written: nat)

  datatype World = World(now: int, table: Table, fills: map<nat, Fill>, cache: map<Token, Entry>, log: seq<Event>)

  predicate Tick(w: World, w': World) {
    w.now <= w'.now && w' == w.(now := w'.now)
  }

  /** Any write that neither revokes nor revives: new rows, extended expiries. */
  predicate Write(w: World, w': World, token: Token, row: Session) {
    && (token in w.table ==> row.revokedAt.Some? == w.table[token].revokedAt.Some?)
    && (forall i :: 0 <= i < |w.log| && token !in w.table ==> w.log[i] != RevokeRow(token))
    && w' == w.(table := w.table[token := row])
  }

  predicate RevokeStored(w: World, w': World, token: Token, at: int) {
    && token in w.table && w.table[token].revokedAt == None
    && w' == w.(table := w.table[token := w.table[token].(revokedAt := Some(at))], log := w.log + [RevokeRow(token)])
  }

  predicate StartFill(w: World, w': World, id: nat, token: Token) {
    && id !in w.fills && token in w.table
    && w' == w.(fills := w.fills[id := Fill(token, w.table[token], |w.log|)],
                log := w.log + [ReadRow(token, w.table[token])])
  }

  /** `Set` with a requested lifetime; the wrapped cache is given the jittered one. */
  predicate FinishFill(w: World, w': World, id: nat, ttl: int, draw: Option<nat>) {
    && id in w.fills
    && var f := w.fills[id];
       w' == w.(fills := w.fills - {id},
                cache := w.cache[f.token := Entry(f.row, w.now + JitteredTTL(ttl, draw), f.read, |w.log|)],
                log := w.log + [SetEntry(f.token, ttl, w.now)])
  }

  /** A deletion that works.  One that fails is no step at all. */
  predicate Delete(w: World, w': World, token: Token) {
    w' == w.(cache := w.cache - {token})
  }

  ghost predicate Step(w: World, w': World) {
    || Tick(w, w')
    || (exists token, row :: Write(w, w', token, row))
    || (exists token, at :: RevokeStored(w, w', token, at))
    || (exists id, token :: StartFill(w, w', id, token))
    || (exists id, ttl, draw :: FinishFill(w, w', id, ttl, draw))
    || (exists token :: Delete(w, w', token))
  }

  predicate Initial(w: World) {
    w.fills == map[] && w.cache == map[] && w.log == []
  }

  /** The row was read at `read`, and if it was live then no revocation precedes the read. */
  ghost predicate ReadFaithfully(w: World, token: Token, row: Session, read: nat) {
    && read < |w.log| && w.log[read] == ReadRow(token, row)
    && (row.revokedAt == None ==> forall v :: 0 <= v < read ==> w.log[v] != RevokeRow(token))
    && token in w.table
    && (row.revokedAt == None && w.table[token].revokedAt.Some?
        ==> exists v :: read < v < |w.log| && w.log[v] == RevokeRow(token))
  }

  ghost predicate RevocationsStored(w: World) {
    forall v :: 0 <= v < |w.log| && w.log[v].RevokeRow? ==>
      w.log[v].token in w.table && w.table[w.log[v].token].revokedAt.Some?
  }

  ghost predicate EntryFaithful(w: World, token: Token, e: Entry) {
    && ReadFaithfully(w, token, e.row, e.read)
    && e.read < e.written < |w.log|
    && w.log[e.written].SetEntry? && w.log[e.written].token == token
    && w.log[e.written].at <= w.now
    && (w.now < e.expiresAt ==> e.expiresAt <= w.log[e.written].at + w.log[e.written].ttl)
  }

  ghost predicate Inv(w: World) {
    && RevocationsStored(w)
    && (forall id :: id in w.fills ==> ReadFaithfully(w, w.fills[id].token, w.fills[id].row, w.fills[id].read))
    && (forall token :: token in w.cache ==> EntryFaithful(w, token, w.cache[token]))
  }

  /** A revocation that a step makes visible in the store is the event the step logs. */
  ghost predicate Continues(w: World, w': World) {
    && w.log <= w'.log && w.table.Keys <= w'.table.Keys && w.now <= w'.now
    && forall token :: token in w.table && w.table[token].revokedAt == None && w'.table[token].revokedAt.Some?
         ==> |w.log| < |w'.log| && w'.log[|w.log|] == RevokeRow(token)
  }

  lemma ReadStays(w: World, w': World, token: Token, row: Session, read: nat)
    requires ReadFaithfully(w, token, row, read) && Continues(w, w')
    ensures ReadFaithfully(w', token, row, read)
  {
    if row.revokedAt == None && w'.table[token].revokedAt.Some? {
      if w.table[token].revokedAt.Some? {
        var v :| read < v < |w.log| && w.log[v] == RevokeRow(token);
        assert w'.log[v] == RevokeRow(token);
      } else {
        assert w'.log[|w.log|] == RevokeRow(token);
      }
    }
  }

  /** What was read and what was cached before a step stay accounted for after it. */
  lemma EarlierStays(w: World, w': World)
    requires Inv(w) && Continues(w, w')
    ensures forall id :: id in w.fills ==> ReadFaithfully(w', w.fills[id].token, w.fills[id].row, w.fills[id].read)
    ensures forall token :: token in w.cache ==> EntryFaithful(w', token, w.cache[token])
  {
    forall id | id in w.fills ensures ReadFaithfully(w', w.fills[id].token, w.fills[id].row, w.fills[id].read) {
      ReadStays(w, w', w.fills[id].token, w.fills[id].row, w.fills[id].read);
    }
    forall token | token in w.cache ensures EntryFaithful(w', token, w.cache[token]) {
      ReadStays(w, w', token, w.cache[token].row, w.cache[token].read);
    }
  }

  lemma FinishFillKeeps(w: World, w': World, id: nat, ttl: int, draw: Option<nat>)
    requires Inv(w) && FinishFill(w, w', id, ttl, draw)
    ensures Inv(w')
  {
    EarlierStays(w, w');
    JitterRange(ttl, draw);
    assert w.fills[id].read < |w.log|;
    hide JitteredTTL;
    hide ReadFaithfully;
    ReadStays(w, w', w.fills[id].token, w.fills[id].row, w.fills[id].read);
  }

  lemma StartFillKeeps(w: World, w': World, id: nat, token: Token)
    requires Inv(w) && StartFill(w, w', id, token)
    ensures Inv(w')
  {
    EarlierStays(w, w');
    assert forall v :: 0 <= v < |w.log| && w.log[v] == RevokeRow(token) ==> w.table[token].revokedAt.Some?;
    assert ReadFaithfully(w', token, w.table[token], |w.log|);
    hide ReadFaithfully;
  }

  lemma StoreChangeKeeps(w: World, w': World)
    requires Inv(w) && Continues(w, w') && RevocationsStored(w')
    requires w'.fills == w.fills && w'.cache.Keys <= w.cache.Keys
    requires forall token :: token in w'.cache ==> w'.cache[token] == w.cache[token]
    ensures Inv(w')
  {
    EarlierStays(w, w');
    hide ReadFaithfully;
  }

  lemma StepKeeps(w: World, w': World)
    requires Inv(w) && Step(w, w')
    ensures Inv(w')
  {
    hide ReadFaithfully;
    hide EntryFaithful;
    if id, ttl, draw :| FinishFill(w, w', id, ttl, draw) {
      FinishFillKeeps(w, w', id, ttl, draw);
    } else if id, token :| StartFill(w, w', id, token) {
      StartFillKeeps(w, w', id, token);
    } else {
      StoreChangeKeeps(w, w');
    }
  }

  ghost predicate Run(worlds: seq<World>) {
    && worlds != [] && Initial(worlds[0])
    && forall i :: 0 <= i < |worlds| - 1 ==> Step(worlds[i], worlds[i + 1])
  }

  lemma {:induction false} RunKeeps(worlds: seq<World>, n: nat)
    requires Run(worlds) && n < |worlds|
    ensures Inv(worlds[n])
  {
    if n > 0 {
      RunKeeps(worlds, n - 1);
      StepKeeps(worlds[n - 1], worlds[n]);
    }
  }

  /** The cache answers with a live session although the store has revoked it. */
  predicate StaleHit(w: World, token: Token) {
    && token in w.cache && w.now < w.cache[token].expiresAt && w.cache[token].row.revokedAt == None
    && token in w.table && w.table[token].revokedAt.Some?
  }

  /** The hit comes from a read older than every revocation and a `Set` still within its requested lifetime. */
  ghost predicate Explains(w: World, token: Token, row: Session, read: nat, written: nat, revoked: nat) {
    && read < written < |w.log| && read < revoked < |w.log|
    && w.log[read] == ReadRow(token, row)
    && w.log[revoked] == RevokeRow(token)
    && (forall v :: 0 <= v < |w.log| && w.log[v] == RevokeRow(token) ==> read < v)
    && w.log[written].SetEntry? && w.log[written].token == token
    && w.log[written].at <= w.now < w.log[written].at + w.log[written].ttl
  }

  /**
   However many deletions fail, a stale hit was read before every revocation of its session, there
   was such a revocation since, and it was set less than its requested lifetime ago.
   */
  lemma StaleHitsAreBounded(worlds: seq<World>, n: nat, token: Token)
    requires Run(worlds) && n < |worlds| && StaleHit(worlds[n], token)
    ensures exists read, written, revoked ::
              Explains(worlds[n], token, worlds[n].cache[token].row, read, written, revoked)
  {
    RunKeeps(worlds, n);
    EntryExplains(worlds[n], token);
  }

  lemma EntryExplains(w: World, token: Token)
    requires StaleHit(w, token) && EntryFaithful(w, token, w.cache[token])
    ensures exists read, written, revoked :: Explains(w, token, w.cache[token].row, read, written, revoked)
  {
    var e := w.cache[token];
    var revoked :| e.read < revoked < |w.log| && w.log[revoked] == RevokeRow(token);
    assert w.log[e.read] == ReadRow(token, e.row);
    assert forall v :: 0 <= v < |w.log| && w.log[v] == RevokeRow(token) ==> e.read < v;
    assert Explains(w, token, e.row, e.read, e.written, revoked);
  }
}
