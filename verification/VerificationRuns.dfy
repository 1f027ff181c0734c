/**
 Issues and verifications of any number of callers, interleaved command by command, with expiry,
 ignored cleanup failures and account changes in between.
 */
module VerificationRuns {
  import opened VerificationStore

  /** What was issued under a token, as the caller supplied it. */
  datatype Issued = Issued(user: User, email: Email, expiresAt: int)

  /** How far a verification has come.  `latest` is the user's most recent issue at the moment of the GETDEL. */
  datatype Phase =
    | Started
    | Claimed(challenge: Challenge, latest: Token)
    | Cleared(challenge: Challenge, latest: Token)
    | Loaded(challenge: Challenge, latest: Token, email: Email)
    | Succeeded(challenge: Challenge, latest: Token, email: Email)
    | Failed

  datatype Flow = Flow(token: Token, verifiedAt: int, phase: Phase)

  /**
   The server, the accounts and the verifications under way, together with the history: what was
   stored, each user's latest, which flow consumed a challenge, and which ones were displaced or expired.
   */
  datatype System = System(
    now: int,
    redis: Redis,
    accounts: map<User, Account>,
    flows: map<nat, Flow>,
    issued: map<Token, Issued>,
    latest: map<User, Token>,
    consumed: map<Token, nat>,
    displaced: set<Token>,
    expired: set<Token>)

  function At(s: System, id: nat, phase: Phase): map<nat, Flow>
    requires id in s.flows
  {
    s.flows[id := s.flows[id].(phase := phase)]
  }

  /** Token hashes are random: one that was ever stored is not drawn again. */
  predicate Issue(
    hash: Email -> string, s: System, s': System, token: Token, user: User, email: Email, expiresAt: int, apiNow: int)
  {
    && token !in s.issued && apiNow < expiresAt
    && var outcome :=
         Replace(s.redis, user, token, Challenge(user, hash(email), expiresAt), Lifetime(expiresAt, apiNow), s.now);
       var gone := s.displaced + Previous(s.redis, user) * s.redis.proofs.Keys;
       match outcome.1
       case Exists => s' == s
       case BadExpiry => s' == s.(redis := outcome.0, displaced := gone)
       case Stored =>
         s' == s.(redis := outcome.0, displaced := gone,
                  issued := s.issued[token := Issued(user, email, expiresAt)],
                  latest := s.latest[user := token])
  }

  predicate Tick(s: System, s': System) {
    && s.now <= s'.now
    && var live := Live(s.redis, s'.now);
       s' == s.(now := s'.now, redis := live, expired := s.expired + (s.redis.proofs.Keys - live.proofs.Keys))
  }

  predicate Begin(s: System, s': System, id: nat, token: Token, verifiedAt: int) {
    id !in s.flows && s' == s.(flows := s.flows[id := Flow(token, verifiedAt, Started)])
  }

  predicate Claim(s: System, s': System, id: nat) {
    && id in s.flows && s.flows[id].phase == Started
    && var token := s.flows[id].token;
       if token !in s.redis.proofs then s' == s.(flows := At(s, id, Failed))
       else
         var challenge := s.redis.proofs[token].challenge;
         && challenge.user in s.latest
         && s' == s.(redis := GetDel(s.redis, token), consumed := s.consumed[token := id],
                     flows := At(s, id, Claimed(challenge, s.latest[challenge.user])))
  }

  /** The cleanup, or its ignored failure, and the check that follows it. */
  predicate Clear(s: System, s': System, id: nat, reached: bool) {
    && id in s.flows && s.flows[id].phase.Claimed?
    && var f := s.flows[id];
       var challenge := f.phase.challenge;
       s' == s.(redis := if reached then ClearOwner(s.redis, challenge.user, f.token) else s.redis,
                flows := At(s, id, if Usable(challenge, f.verifiedAt) then Cleared(challenge, f.phase.latest) else Failed))
  }

  predicate Load(hash: Email -> string, s: System, s': System, id: nat) {
    && id in s.flows && s.flows[id].phase.Cleared?
    && var phase := s.flows[id].phase;
       var user := phase.challenge.user;
       s' == s.(flows := At(s, id,
         if user in s.accounts && !s.accounts[user].verified && hash(s.accounts[user].email) == phase.challenge.emailHash
         then Loaded(phase.challenge, phase.latest, s.accounts[user].email)
         else Failed))
  }

  /** `WHERE id = ? AND email = ? AND email_verified = false`, on the row as it is by then. */
  predicate Update(s: System, s': System, id: nat) {
    && id in s.flows && s.flows[id].phase.Loaded?
    && var phase := s.flows[id].phase;
       var user := phase.challenge.user;
       if user in s.accounts && s.accounts[user] == Account(phase.email, false) then
         s' == s.(accounts := s.accounts[user := Account(phase.email, true)],
                  flows := At(s, id, Succeeded(phase.challenge, phase.latest, phase.email)))
       else s' == s.(flows := At(s, id, Failed))
  }

  /** A lost connection, an error from either store, or a caller that went away. */
  predicate GiveUp(s: System, s': System, id: nat) {
    id in s.flows && !s.flows[id].phase.Succeeded? && s' == s.(flows := At(s, id, Failed))
  }

  /** Accounts are created, deleted and changed by others at any moment. */
  predicate ChangeAccounts(s: System, s': System) {
    s' == s.(accounts := s'.accounts)
  }

  datatype Action =
    | Issuing(token: Token, user: User, email: Email, expiresAt: int, apiNow: int)
    | Ticking
    | Beginning(id: nat, token: Token, verifiedAt: int)
    | Claiming(id: nat)
    | Clearing(id: nat, reached: bool)
    | Loading(id: nat)
    | Updating(id: nat)
    | GivingUp(id: nat)
    | ChangingAccounts

  predicate StepBy(hash: Email -> string, s: System, s': System, action: Action) {
    match action
    case Issuing(token, user, email, expiresAt, apiNow) => Issue(hash, s, s', token, user, email, expiresAt, apiNow)
    case Ticking => Tick(s, s')
    case Beginning(id, token, verifiedAt) => Begin(s, s', id, token, verifiedAt)
    case Claiming(id) => Claim(s, s', id)
    case Clearing(id, reached) => Clear(s, s', id, reached)
    case Loading(id) => Load(hash, s, s', id)
    case Updating(id) => Update(s, s', id)
    case GivingUp(id) => GiveUp(s, s', id)
    case ChangingAccounts => ChangeAccounts(s, s')
  }

  ghost predicate Step(hash: Email -> string, s: System, s': System) {
    exists action :: StepBy(hash, s, s', action)
  }

  predicate Initial(s: System) {
    && s.redis == Redis(map[], map[]) && s.flows == map[] && s.issued == map[] && s.latest == map[]
    && s.consumed == map[] && s.displaced == {} && s.expired == {}
  }

  // ----- the invariant -----

  /** A live proof is named by its user's owner key, with which it expires, and is the user's latest issue. */
  ghost predicate ProofsOwned(hash: Email -> string, s: System) {
    forall p :: p in s.redis.proofs ==>
      var c := s.redis.proofs[p].challenge;
      && c.user in s.redis.owners && s.redis.owners[c.user] == Owner(p, s.redis.proofs[p].deadline)
      && c.user in s.latest && s.latest[c.user] == p
      && Matches(hash, s, p, c)
  }

  predicate Matches(hash: Email -> string, s: System, token: Token, c: Challenge) {
    && token in s.issued
    && c == Challenge(s.issued[token].user, hash(s.issued[token].email), s.issued[token].expiresAt)
  }

  /** Every stored challenge is in exactly one place: live, consumed, displaced or expired. */
  predicate Partition(s: System) {
    && s.issued.Keys == s.redis.proofs.Keys + s.consumed.Keys + s.displaced + s.expired
    && s.redis.proofs.Keys !! s.consumed.Keys !! s.displaced !! s.expired
  }

  ghost predicate FlowsSound(hash: Email -> string, s: System) {
    forall id :: id in s.flows ==> FlowSound(hash, s, id, s.flows[id])
  }

  predicate FlowSound(hash: Email -> string, s: System, id: nat, f: Flow) {
    f.phase.Started? || f.phase.Failed?
    || (&& f.token in s.consumed && s.consumed[f.token] == id
        && f.phase.latest == f.token
        && Matches(hash, s, f.token, f.phase.challenge)
        && (!f.phase.Claimed? ==> f.verifiedAt < f.phase.challenge.expiresAt)
        && (f.phase.Loaded? || f.phase.Succeeded? ==> hash(f.phase.email) == f.phase.challenge.emailHash))
  }

  ghost predicate Inv(hash: Email -> string, s: System) {
    ProofsOwned(hash, s) && Partition(s) && FlowsSound(hash, s)
  }

  /** A replacement deletes the one live challenge its user had, and no other. */
  lemma IssueKeepsOwners(
    hash: Email -> string, s: System, s': System, token: Token, user: User, email: Email, expiresAt: int, apiNow: int)
    requires ProofsOwned(hash, s) && Issue(hash, s, s', token, user, email, expiresAt, apiNow)
    ensures ProofsOwned(hash, s')
  {
    forall p | p in s'.redis.proofs
      ensures var c := s'.redis.proofs[p].challenge;
              && c.user in s'.redis.owners && s'.redis.owners[c.user] == Owner(p, s'.redis.proofs[p].deadline)
              && c.user in s'.latest && s'.latest[c.user] == p
              && Matches(hash, s', p, c)
    {
      if p in s.redis.proofs && p != token {
        assert s'.redis.proofs[p] == s.redis.proofs[p];
      }
    }
  }

  lemma IssueKeepsPartition(
    hash: Email -> string, s: System, s': System, token: Token, user: User, email: Email, expiresAt: int, apiNow: int)
    requires Partition(s) && Issue(hash, s, s', token, user, email, expiresAt, apiNow)
    ensures Partition(s')
  {
    var gone := Previous(s.redis, user) * s.redis.proofs.Keys;
    var challenge := Challenge(user, hash(email), expiresAt);
    var outcome := Replace(s.redis, user, token, challenge, Lifetime(expiresAt, apiNow), s.now);
    if outcome.1 == BadExpiry {
      assert s'.redis.proofs.Keys == s.redis.proofs.Keys - gone;
    } else if outcome.1 == Stored {
      assert s'.redis.proofs.Keys == s.redis.proofs.Keys - gone + {token};
    }
  }

  lemma FlowsStay(hash: Email -> string, s: System, s': System, changed: set<nat>)
    requires FlowsSound(hash, s) && s'.flows - changed == s.flows - changed
    requires forall token :: token in s.consumed ==> token in s'.consumed && s'.consumed[token] == s.consumed[token]
    requires forall token :: token in s.issued ==> token in s'.issued && s'.issued[token] == s.issued[token]
    requires forall id :: id in changed && id in s'.flows ==> FlowSound(hash, s', id, s'.flows[id])
    ensures FlowsSound(hash, s')
  {
    forall id | id in s'.flows ensures FlowSound(hash, s', id, s'.flows[id]) {
      if id !in changed {
        assert id in s'.flows - changed;
        assert FlowSound(hash, s, id, s.flows[id]);
      }
    }
  }

  lemma IssueFrame(
    hash: Email -> string, s: System, s': System, token: Token, user: User, email: Email, expiresAt: int, apiNow: int)
    requires Issue(hash, s, s', token, user, email, expiresAt, apiNow)
    ensures s'.flows == s.flows && s'.consumed == s.consumed
    ensures forall other :: other in s.issued ==> other in s'.issued && s'.issued[other] == s.issued[other]
  {
    hide Replace;
    hide Lifetime;
    hide Previous;
  }

  lemma IssueKeeps(
    hash: Email -> string, s: System, s': System, token: Token, user: User, email: Email, expiresAt: int, apiNow: int)
    requires Inv(hash, s) && Issue(hash, s, s', token, user, email, expiresAt, apiNow)
    ensures Inv(hash, s')
  {
    hide Issue;
    hide ProofsOwned;
    hide Partition;
    hide FlowsSound;
    hide FlowSound;
    IssueKeepsOwners(hash, s, s', token, user, email, expiresAt, apiNow);
    IssueKeepsPartition(hash, s, s', token, user, email, expiresAt, apiNow);
    IssueFrame(hash, s, s', token, user, email, expiresAt, apiNow);
    FlowsStay(hash, s, s', {});
  }

  lemma TickKeeps(hash: Email -> string, s: System, s': System)
    requires Inv(hash, s) && Tick(s, s')
    ensures Inv(hash, s')
  {
  }

  lemma ClaimKeeps(hash: Email -> string, s: System, s': System, id: nat)
    requires Inv(hash, s) && Claim(s, s', id)
    ensures Inv(hash, s')
  {
    ClaimKeepsPlaces(hash, s, s', id);
    ClaimedSound(hash, s, s', id);
    hide ProofsOwned;
    FlowsStay(hash, s, s', {id});
    hide FlowsSound;
    hide Partition;
  }

  lemma ClaimKeepsPlaces(hash: Email -> string, s: System, s': System, id: nat)
    requires ProofsOwned(hash, s) && Partition(s) && Claim(s, s', id)
    ensures ProofsOwned(hash, s') && Partition(s')
    ensures forall token :: token in s.consumed ==> token in s'.consumed && s'.consumed[token] == s.consumed[token]
  {
    hide At;
    var token := s.flows[id].token;
    if token in s.redis.proofs {
      assert s'.redis.proofs.Keys == s.redis.proofs.Keys - {token};
      assert s'.consumed.Keys == s.consumed.Keys + {token};
    }
  }

  lemma ClaimedSound(hash: Email -> string, s: System, s': System, id: nat)
    requires ProofsOwned(hash, s) && Claim(s, s', id)
    ensures FlowSound(hash, s', id, s'.flows[id])
  {
  }

  /** The cleanup cannot delete the owner key of a live challenge, since its own was consumed and is never reissued. */
  lemma ClearKeeps(hash: Email -> string, s: System, s': System, id: nat, reached: bool)
    requires Inv(hash, s) && Clear(s, s', id, reached)
    ensures Inv(hash, s')
  {
  }

  lemma LocalKeeps(hash: Email -> string, s: System, s': System, id: nat)
    requires Inv(hash, s) && (Load(hash, s, s', id) || Update(s, s', id) || GiveUp(s, s', id))
    ensures Inv(hash, s')
  {
    assert FlowSound(hash, s, id, s.flows[id]);
    FlowsStay(hash, s, s', {id});
    hide FlowsSound;
  }

  lemma BeginKeeps(hash: Email -> string, s: System, s': System, id: nat, token: Token, verifiedAt: int)
    requires Inv(hash, s) && Begin(s, s', id, token, verifiedAt)
    ensures Inv(hash, s')
  {
    FlowsStay(hash, s, s', {id});
    hide FlowsSound;
  }

  lemma ChangeKeeps(hash: Email -> string, s: System, s': System)
    requires Inv(hash, s) && ChangeAccounts(s, s')
    ensures Inv(hash, s')
  {
    hide FlowSound;
    FlowsStay(hash, s, s', {});
  }

  lemma StepKeeps(hash: Email -> string, s: System, s': System)
    requires Inv(hash, s) && Step(hash, s, s')
    ensures Inv(hash, s')
  {
    var action :| StepBy(hash, s, s', action);
    hide Inv;
    match action {
      case Issuing(token, user, email, expiresAt, apiNow) =>
        IssueKeeps(hash, s, s', token, user, email, expiresAt, apiNow);
      case Ticking => TickKeeps(hash, s, s');
      case Beginning(id, token, verifiedAt) => BeginKeeps(hash, s, s', id, token, verifiedAt);
      case Claiming(id) => ClaimKeeps(hash, s, s', id);
      case Clearing(id, reached) => ClearKeeps(hash, s, s', id, reached);
      case Loading(id) => LocalKeeps(hash, s, s', id);
      case Updating(id) => LocalKeeps(hash, s, s', id);
      case GivingUp(id) => LocalKeeps(hash, s, s', id);
      case ChangingAccounts => ChangeKeeps(hash, s, s');
    }
  }

  ghost predicate Run(hash: Email -> string, states: seq<System>) {
    && states != [] && Initial(states[0])
    && forall i :: 0 <= i < |states| - 1 ==> Step(hash, states[i], states[i + 1])
  }

  lemma {:induction false} RunKeeps(hash: Email -> string, states: seq<System>, n: nat)
    requires Run(hash, states) && n < |states|
    ensures Inv(hash, states[n])
  {
    if n == 0 {
    } else {
      RunKeeps(hash, states, n - 1);
      StepKeeps(hash, states[n - 1], states[n]);
    }
  }

  // ----- what the runs guarantee -----

  /** At every moment a user's live proof is the one the owner key names, so no user has two. */
  lemma OneLiveChallenge(hash: Email -> string, states: seq<System>, n: nat, p: Token, q: Token)
    requires Run(hash, states) && n < |states|
    requires p in states[n].redis.proofs && q in states[n].redis.proofs
    ensures
      var r := states[n].redis;
      var user := r.proofs[p].challenge.user;
      && user in r.owners && r.owners[user].proof == p && r.owners[user].deadline == r.proofs[p].deadline
      && (r.proofs[q].challenge.user == user ==> p == q)
  {
    RunKeeps(hash, states, n);
  }

  ghost predicate Injective(hash: Email -> string) {
    forall x, y :: hash(x) == hash(y) ==> x == y
  }

  /**
   When a verification succeeds it has consumed, alone, the challenge that was its user's latest at
   that moment, before the challenge's expiry; the account at that instant is unverified and its email
   hashes as, and if the hash is injective is, the email the challenge was issued for; and the step
   makes exactly that account verified.
   */
  lemma VerificationSoundness(hash: Email -> string, states: seq<System>, n: nat, id: nat)
    requires Run(hash, states) && n + 1 < |states|
    requires id in states[n].flows && !states[n].flows[id].phase.Succeeded?
    requires id in states[n + 1].flows && states[n + 1].flows[id].phase.Succeeded?
    ensures
      var s, s', f := states[n], states[n + 1], states[n + 1].flows[id];
      && f.token in s.issued && f.token in s.consumed && s.consumed[f.token] == id
      && f.phase.latest == f.token
      && var challenged := s.issued[f.token];
         && f.verifiedAt < challenged.expiresAt
         && challenged.user in s.accounts && !s.accounts[challenged.user].verified
         && hash(s.accounts[challenged.user].email) == hash(challenged.email)
         && (Injective(hash) ==> s.accounts[challenged.user].email == challenged.email)
         && s'.accounts == s.accounts[challenged.user := Account(s.accounts[challenged.user].email, true)]
  {
    RunKeeps(hash, states, n);
    OnlyUpdateSucceeds(hash, states[n], states[n + 1], id);
    assert FlowSound(hash, states[n], id, states[n].flows[id]);
  }

  /** Of the flows, the step changes `id` alone. */
  predicate Advances(s: System, s': System, id: nat) {
    id in s'.flows && s'.flows == s.flows[id := s'.flows[id]]
  }

  lemma StepAdvances(hash: Email -> string, s: System, s': System, action: Action)
    requires StepBy(hash, s, s', action)
    ensures match action
            case Issuing(_, _, _, _, _) => s'.flows == s.flows
            case Ticking => s'.flows == s.flows
            case ChangingAccounts => s'.flows == s.flows
            case Updating(id) => id in s.flows && Advances(s, s', id) && Update(s, s', id)
            case Beginning(id, _, _) => Advances(s, s', id) && !s'.flows[id].phase.Succeeded?
            case Claiming(id) => Advances(s, s', id) && !s'.flows[id].phase.Succeeded?
            case Clearing(id, _) => Advances(s, s', id) && !s'.flows[id].phase.Succeeded?
            case Loading(id) => Advances(s, s', id) && !s'.flows[id].phase.Succeeded?
            case GivingUp(id) => Advances(s, s', id) && !s'.flows[id].phase.Succeeded?
  {
    hide Replace;
    hide Live;
    hide ClearOwner;
    hide Usable;
  }

  lemma OnlyUpdateSucceeds(hash: Email -> string, s: System, s': System, id: nat)
    requires Step(hash, s, s') && id in s'.flows && s'.flows[id].phase.Succeeded?
    ensures id in s.flows
    ensures s'.flows[id] == s.flows[id] || Update(s, s', id)
  {
    var action :| StepBy(hash, s, s', action);
    StepAdvances(hash, s, s', action);
    hide StepBy;
    hide Update;
    hide Advances;
    if !action.Issuing? && !action.Ticking? && !action.ChangingAccounts? && action.id != id {
      AdvancesAlone(s, s', action.id, id);
    }
  }

  lemma AdvancesAlone(s: System, s': System, id: nat, other: nat)
    requires Advances(s, s', id) && other != id && other in s'.flows
    ensures other in s.flows && s'.flows[other] == s.flows[other]
  {
  }

  /** What has left the live set stays where it went, and only a fresh token ever enters the live set. */
  ghost predicate FatesKept(s: System, s': System) {
    && (forall token :: token in s.consumed ==> token in s'.consumed && s'.consumed[token] == s.consumed[token])
    && s.displaced <= s'.displaced
    && s.expired <= s'.expired
    && s.issued.Keys <= s'.issued.Keys
    && (forall token :: token in s'.redis.proofs && token in s.issued ==> token in s.redis.proofs)
  }

  lemma IssueKeepsFates(
    hash: Email -> string, s: System, s': System, token: Token, user: User, email: Email, expiresAt: int, apiNow: int)
    requires Issue(hash, s, s', token, user, email, expiresAt, apiNow)
    ensures FatesKept(s, s')
  {
  }

  lemma ClaimKeepsFates(s: System, s': System, id: nat)
    requires Partition(s) && Claim(s, s', id)
    ensures FatesKept(s, s')
  {
  }

  lemma OtherStepsKeepFates(hash: Email -> string, s: System, s': System, action: Action)
    requires StepBy(hash, s, s', action) && !action.Issuing? && !action.Claiming?
    ensures FatesKept(s, s')
  {
    hide Usable;
    hide At;
  }

  lemma StepKeepsFates(hash: Email -> string, s: System, s': System)
    requires Inv(hash, s) && Step(hash, s, s')
    ensures FatesKept(s, s')
  {
    var action :| StepBy(hash, s, s', action);
    hide FatesKept;
    hide Partition;
    match action {
      case Issuing(token, user, email, expiresAt, apiNow) =>
        IssueKeepsFates(hash, s, s', token, user, email, expiresAt, apiNow);
      case Claiming(id) => ClaimKeepsFates(s, s', id);
      case _ => OtherStepsKeepFates(hash, s, s', action);
    }
  }

  lemma FatesChain(s: System, mid: System, s': System)
    requires FatesKept(s, mid) && FatesKept(mid, s')
    ensures FatesKept(s, s')
  {
  }

  lemma RunStep(hash: Email -> string, states: seq<System>, i: nat)
    requires Run(hash, states) && i + 1 < |states|
    ensures Step(hash, states[i], states[i + 1])
  {
    hide Step;
  }

  lemma FatesSame(s: System)
    ensures FatesKept(s, s)
  {
  }

  lemma {:induction false} FatesPersist(hash: Email -> string, states: seq<System>, i: nat, j: nat)
    requires Run(hash, states) && i <= j < |states|
    ensures FatesKept(states[i], states[j])
  {
    hide *;
    if i == j {
      FatesSame(states[i]);
    } else {
      FatesPersist(hash, states, i, j - 1);
      RunKeeps(hash, states, j - 1);
      RunStep(hash, states, j - 1);
      StepKeepsFates(hash, states[j - 1], states[j]);
      FatesChain(states[i], states[j - 1], states[j]);
    }
  }

  /**
   Live, consumed, displaced and expired are exclusive, and between any two moments of a run what has left
   the live set stays where it went: a challenge leaves the live set at most once.
   */
  lemma FateIsFinal(hash: Email -> string, states: seq<System>, i: nat, j: nat)
    requires Run(hash, states) && i <= j < |states|
    ensures Partition(states[i]) && Partition(states[j]) && FatesKept(states[i], states[j])
    ensures forall token :: token in states[j].issued <==>
              || token in states[j].redis.proofs || token in states[j].consumed
              || token in states[j].displaced || token in states[j].expired
    ensures forall token :: token in states[i].consumed || token in states[i].displaced || token in states[i].expired ==>
              && token !in states[j].redis.proofs
              && (token in states[i].consumed <==> token in states[j].consumed)
              && (token in states[i].displaced <==> token in states[j].displaced)
              && (token in states[i].expired <==> token in states[j].expired)
  {
    RunKeeps(hash, states, i);
    RunKeeps(hash, states, j);
    FatesPersist(hash, states, i, j);
    FatesExclusive(states[i], states[j]);
    hide Partition;
    hide FatesKept;
  }

  lemma FatesExclusive(s: System, s': System)
    requires Partition(s) && Partition(s') && FatesKept(s, s')
    ensures forall token :: token in s'.issued <==>
              token in s'.redis.proofs || token in s'.consumed || token in s'.displaced || token in s'.expired
    ensures forall token :: token in s.consumed || token in s.displaced || token in s.expired ==>
              && token !in s'.redis.proofs
              && (token in s.consumed <==> token in s'.consumed)
              && (token in s.displaced <==> token in s'.displaced)
              && (token in s.expired <==> token in s'.expired)
  {
  }

  /** The step is a GETDEL that found its challenge, whatever becomes of the verification afterwards. */
  predicate Consumes(s: System, s': System, id: nat) {
    Claim(s, s', id) && s.flows[id].token in s.redis.proofs
  }

  lemma ConsumptionRecorded(s: System, s': System, id: nat)
    requires Consumes(s, s', id)
    ensures s.flows[id].token in s'.consumed
  {
    hide At;
  }

  /** No two GETDELs of a run find the same challenge, even when the first verification failed after its own. */
  lemma SingleUse(hash: Email -> string, states: seq<System>, i: nat, j: nat, a: nat, b: nat)
    requires Run(hash, states) && i < j && j + 1 < |states|
    requires Consumes(states[i], states[i + 1], a) && Consumes(states[j], states[j + 1], b)
    ensures states[i].flows[a].token != states[j].flows[b].token
  {
    ConsumptionRecorded(states[i], states[i + 1], a);
    FateIsFinal(hash, states, i + 1, j);
    assert Partition(states[j]) && states[j].flows[b].token in states[j].redis.proofs;
    hide Run;
    hide Claim;
  }

  // ----- one success per user when nothing resets a verified account -----

  /** Verified accounts stay, and stay verified. */
  predicate KeepsVerified(s: System, s': System) {
    forall user :: user in s.accounts && s.accounts[user].verified ==> user in s'.accounts && s'.accounts[user].verified
  }

  ghost predicate NothingResets(states: seq<System>) {
    forall i :: 0 <= i < |states| - 1 ==> KeepsVerified(states[i], states[i + 1])
  }

  ghost predicate OncePerUser(s: System) {
    && (forall a :: a in s.flows && s.flows[a].phase.Succeeded? ==>
          var user := s.flows[a].phase.challenge.user;
          user in s.accounts && s.accounts[user].verified)
    && (forall a, b :: a in s.flows && b in s.flows ==>
          s.flows[a].phase.Succeeded? && s.flows[b].phase.Succeeded?
          && s.flows[a].phase.challenge.user == s.flows[b].phase.challenge.user
          ==> a == b)
  }

  lemma OnceStep(hash: Email -> string, s: System, s': System)
    requires OncePerUser(s) && KeepsVerified(s, s') && Step(hash, s, s')
    ensures OncePerUser(s')
  {
    forall a | a in s'.flows && s'.flows[a].phase.Succeeded?
      ensures a in s.flows && (s'.flows[a] == s.flows[a] || Update(s, s', a))
    {
      OnlyUpdateSucceeds(hash, s, s', a);
    }
    hide Step;
    OnceFromUpdates(s, s');
  }

  lemma OnceFromUpdates(s: System, s': System)
    requires OncePerUser(s) && KeepsVerified(s, s')
    requires forall a :: a in s'.flows && s'.flows[a].phase.Succeeded? ==>
               a in s.flows && (s'.flows[a] == s.flows[a] || Update(s, s', a))
    ensures OncePerUser(s')
  {
    if a :| a in s'.flows && s'.flows[a].phase.Succeeded? && s'.flows[a] != s.flows[a] {
      assert Update(s, s', a);
    }
  }

  /** No user has two successful verifications in a run where nothing resets a verified account. */
  lemma {:induction false} OneSuccessPerUser(hash: Email -> string, states: seq<System>, n: nat)
    requires Run(hash, states) && NothingResets(states) && n < |states|
    ensures OncePerUser(states[n])
    ensures forall a, b :: a in states[n].flows && b in states[n].flows ==>
              var f, g := states[n].flows[a].phase, states[n].flows[b].phase;
              f.Succeeded? && g.Succeeded? && f.challenge.user == g.challenge.user ==> a == b
  {
    if n > 0 {
      OneSuccessPerUser(hash, states, n - 1);
      OnceStep(hash, states[n - 1], states[n]);
    }
  }
}
