/** Email-verification challenges in Redis: the commands and scripts, and one `Issue` or `Verify` call over them. */
module VerificationStore {
  import opened Wrappers

  type Token = string
  type User = string
  type Email = string

  datatype Challenge = Challenge(user: User, emailHash: string, expiresAt: int)

  /** A proof key's value and the server time at which the key expires. */
  datatype Proof = Proof(challenge: Challenge, deadline: int)

  /** An owner key's value, the name of a proof key, and its own expiry. */
  datatype Owner = Owner(proof: Token, deadline: int)

  /** Owner keys by user and proof keys by token hash; both key names are derived injectively and never coincide. */
  datatype Redis = Redis(owners: map<User, Owner>, proofs: map<Token, Proof>)

  datatype Account = Account(email: Email, verified: bool)

  /** The keys the server still shows at `now`. */
  function Live(r: Redis, now: int): Redis {
    Redis(map u | u in r.owners && now <= r.owners[u].deadline :: r.owners[u],
          map p | p in r.proofs && now <= r.proofs[p].deadline :: r.proofs[p])
  }

  /** A key is shown up to and including its deadline, with the value it was given. */
  lemma LiveColumns(r: Redis, now: int)
    ensures forall u :: u in Live(r, now).owners <==> u in r.owners && now <= r.owners[u].deadline
    ensures forall p :: p in Live(r, now).proofs <==> p in r.proofs && now <= r.proofs[p].deadline
    ensures forall u :: u in Live(r, now).owners ==> Live(r, now).owners[u] == r.owners[u]
    ensures forall p :: p in Live(r, now).proofs ==> Live(r, now).proofs[p] == r.proofs[p]
  {
  }

  datatype Replaced = Exists | Stored | BadExpiry

  /** The proof key the user's owner key names, if there is one to delete. */
  function Previous(r: Redis, user: User): set<Token> {
    if user in r.owners then {r.owners[user].proof} else {}
  }

  /**
   The replace script.  A lifetime below one millisecond arrives as zero, which the first SET
   refuses; by then the previous proof is gone, and a script's earlier commands are not undone.
   */
  function Replace(r: Redis, user: User, token: Token, challenge: Challenge, ttl: int, now: int): (Redis, Replaced) {
    if token in r.proofs then (r, Exists)
    else
      var cleared := r.(proofs := r.proofs - Previous(r, user));
      if ttl < 1 then (cleared, BadExpiry)
      else
        (Redis(cleared.owners[user := Owner(token, now + ttl)], cleared.proofs[token := Proof(challenge, now + ttl)]),
         Stored)
  }

  function GetDel(r: Redis, token: Token): Redis {
    r.(proofs := r.proofs - {token})
  }

  /** The compare-and-delete script, which compares only the key name. */
  function ClearOwner(r: Redis, user: User, token: Token): Redis {
    if user in r.owners && r.owners[user].proof == token then r.(owners := r.owners - {user}) else r
  }

  /** Whether a consumed challenge may go on to the account. */
  predicate Usable(challenge: Challenge, verifiedAt: int) {
    challenge.user != "" && challenge.emailHash != "" && verifiedAt < challenge.expiresAt
  }

  datatype Error = InactiveToken | ConflictingToken | NotFound | InvalidRecord | Unavailable

  const MILLISECOND := 1_000_000

  /**
   Where Redis, the stored text or the database lets a call down.  A script, GETDEL or update may not run, or
   run with its reply lost; whether a cleanup ran is all that matters of it, since its reply is ignored.
   */
  datatype Fault =
    | NoFault | RedisFails | RedisReplyLost | Undecodable | CleanupFails | LoadFails | UpdateFails | UpdateReplyLost

  /** The lifetime the script is given, in milliseconds, for nanosecond instants. */
  function Lifetime(expiresAt: int, now: int): int { (expiresAt - now) / MILLISECOND }

  /**
   An issue whose expiry lies ahead either stores its challenge or leaves Redis as it was, exactly when its
   lifetime is a millisecond or more, or its token is taken, or the user has no challenge to lose.
   */
  lemma IssueIsAtomic(
    r: Redis, user: User, token: Token, challenge: Challenge, expiresAt: int, now: int, serverNow: int)
    requires now < expiresAt
    ensures
      var outcome := Replace(r, user, token, challenge, Lifetime(expiresAt, now), serverNow);
      (outcome.1 == Stored || outcome.0 == r)
      <==> expiresAt - now >= MILLISECOND || token in r.proofs || Previous(r, user) !! r.proofs.Keys
  {
    if expiresAt - now < MILLISECOND && token !in r.proofs {
      var cleared := r.proofs - Previous(r, user);
      assert cleared.Keys == r.proofs.Keys - Previous(r, user);
      assert cleared == r.proofs <==> Previous(r, user) !! r.proofs.Keys;
    }
  }

  /** Half a millisecond before its expiry, an issue is refused and costs the user the live challenge. */
  lemma ShortLifetimeLosesChallenge(challenge: Challenge)
    ensures
      var r := Redis(map["user" := Owner("old", 900)], map["old" := Proof(Challenge("user", "hash", 5_000_000), 900)]);
      && Live(r, 100) == r
      && Replace(r, "user", "new", challenge, Lifetime(1_500_000, 1_000_000), 100) == (r.(proofs := map[]), BadExpiry)
  {
    var r := Redis(map["user" := Owner("old", 900)], map["old" := Proof(Challenge("user", "hash", 5_000_000), 900)]);
    assert "old" in r.proofs && "new"[0] != "old"[0];
    assert r.proofs - {"old"} == map[];
    assert Live(r, 100).proofs == r.proofs && Live(r, 100).owners == r.owners;
  }

  class RedisEmailVerificationStore {
    var redis: Redis
    var accounts: map<User, Account>
    const emailHash: Email -> string

    constructor (emailHash: Email -> string)
      ensures this.emailHash == emailHash && redis == Redis(map[], map[]) && accounts == map[]
    {
      this.emailHash := emailHash;
      redis, accounts := Redis(map[], map[]), map[];
    }

    /** What Redis shows is spelled out in `LiveColumns`. */
    method Issue(token: Token, user: User, email: Email, expiresAt: int, now: int, serverNow: int, fault: Fault)
      returns (result: Result<(), Error>)
      modifies this
      ensures accounts == old(accounts)
      ensures
        var before := Live(old(redis), serverNow);
        var previous := if user in before.owners then {before.owners[user].proof} else {};
        if expiresAt <= now then result == Err(InactiveToken) && redis == old(redis)
        else if fault == RedisFails then result == Err(Unavailable) && redis == old(redis)
        else if token in before.proofs then
          && redis == before
          && result == Err(if fault == RedisReplyLost then Unavailable else ConflictingToken)
        else if expiresAt - now < 1_000_000 then
          && redis == Redis(before.owners, before.proofs - previous)
          && result == Err(Unavailable)
        else
          var deadline := serverNow + (expiresAt - now) / 1_000_000;
          && redis.owners == before.owners[user := Owner(token, deadline)]
          && redis.proofs ==
             (before.proofs - previous)[token := Proof(Challenge(user, emailHash(email), expiresAt), deadline)]
          && result == if fault == RedisReplyLost then Err(Unavailable) else Ok(())
    {
      var ttl := expiresAt - now;
      if ttl <= 0 {
        return Err(InactiveToken);
      }
      if fault == RedisFails {
        return Err(Unavailable);
      }
      var challenge := Challenge(user, emailHash(email), expiresAt);
      var outcome := Replace(Live(redis, serverNow), user, token, challenge, ttl / MILLISECOND, serverNow);
      redis := outcome.0;
      if fault == RedisReplyLost {
        return Err(Unavailable);
      }
      match outcome.1 {
        case Exists => result := Err(ConflictingToken);
        case BadExpiry => result := Err(Unavailable);
        case Stored => result := Ok(());
      }
    }

    method Verify(token: Token, verifiedAt: int, serverNow: int, fault: Fault) returns (result: Result<User, Error>)
      modifies this
      ensures
        var before := Live(old(redis), serverNow);
        if fault == RedisFails then result == Err(Unavailable) && redis == old(redis)
        else if fault == RedisReplyLost then
          result == Err(Unavailable) && redis == Redis(before.owners, before.proofs - {token})
        else if token !in before.proofs then result == Err(NotFound) && redis == before
        else
          var user := before.proofs[token].challenge.user;
          && redis.proofs == before.proofs - {token}
          && redis.owners ==
             if fault != CleanupFails && fault != Undecodable && user in before.owners && before.owners[user].proof == token
             then before.owners - {user} else before.owners
      ensures
        var before, rows := Live(old(redis), serverNow), old(accounts);
        fault != RedisFails && fault != RedisReplyLost && token in before.proofs ==>
          var c := before.proofs[token].challenge;
          var usable := c.user != "" && c.emailHash != "" && verifiedAt < c.expiresAt;
          var matches := c.user in rows && !rows[c.user].verified && emailHash(rows[c.user].email) == c.emailHash;
          && (result == Err(InvalidRecord) <==> fault == Undecodable)
          && (result == Err(InactiveToken) <==>
                fault != Undecodable && (!usable || (fault != LoadFails && c.user in rows && !matches)))
          && (result == Err(NotFound) <==> fault != Undecodable && usable && fault != LoadFails && c.user !in rows)
          && (result.Ok? <==>
                && usable && matches
                && fault != Undecodable && fault != LoadFails && fault != UpdateFails && fault != UpdateReplyLost)
          && (result.Ok? ==> result.value == c.user)
          && accounts == if result.Ok? || (fault == UpdateReplyLost && usable && matches)
                         then rows[c.user := Account(rows[c.user].email, true)] else rows
      ensures fault == RedisFails || fault == RedisReplyLost || token !in Live(old(redis), serverNow).proofs ==>
                accounts == old(accounts)
    {
      if fault == RedisFails {
        return Err(Unavailable);
      }
      redis := Live(redis, serverNow);
      if fault == RedisReplyLost {
        redis := GetDel(redis, token);
        return Err(Unavailable);
      }
      if token !in redis.proofs {
        return Err(NotFound);
      }
      var challenge := redis.proofs[token].challenge;
      redis := GetDel(redis, token);
      if fault == Undecodable {
        return Err(InvalidRecord);
      }
      if fault != CleanupFails {
        redis := ClearOwner(redis, challenge.user, token);
      }
      if challenge.user == "" || challenge.emailHash == "" || !(verifiedAt < challenge.expiresAt) {
        return Err(InactiveToken);
      }
      if fault == LoadFails {
        return Err(Unavailable);
      }
      if challenge.user !in accounts {
        return Err(NotFound);
      }
      var account := accounts[challenge.user];
      if account.verified || emailHash(account.email) != challenge.emailHash {
        return Err(InactiveToken);
      }
      if fault == UpdateFails {
        return Err(Unavailable);
      }
      accounts := accounts[challenge.user := Account(account.email, true)];
      if fault == UpdateReplyLost {
        return Err(Unavailable);
      }
      result := Ok(challenge.user);
    }
  }
}
