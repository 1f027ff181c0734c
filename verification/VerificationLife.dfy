/** What a stored challenge is good for: it stays until its deadline, and an undisturbed verification of it succeeds. */
module VerificationLife {
  import opened VerificationStore
  import opened VerificationRuns

  // ----- a stored challenge stays -----

  /** The challenge is live with the deadline it was given, or was consumed or replaced. */
  predicate Accounted(s: System, token: Token, deadline: int) {
    || (token in s.redis.proofs && s.redis.proofs[token].deadline == deadline)
    || token in s.consumed || token in s.displaced
  }

  /** Time has not gone back, and the challenge is still accounted for if its deadline has not passed. */
  ghost predicate Remains(s: System, s': System, token: Token, deadline: int) {
    && s.now <= s'.now
    && (token in s.issued && Accounted(s, token, deadline) && s'.now <= deadline ==>
          token in s'.issued && Accounted(s', token, deadline))
  }

  lemma IssueRemains(
    hash: Email -> string, s: System, s': System, action: Action, token: Token, deadline: int)
    requires action.Issuing? && StepBy(hash, s, s', action)
    ensures Remains(s, s', token, deadline)
  {
    hide Lifetime;
  }

  lemma OtherRemains(hash: Email -> string, s: System, s': System, action: Action, token: Token, deadline: int)
    requires !action.Issuing? && StepBy(hash, s, s', action)
    ensures Remains(s, s', token, deadline)
  {
    hide Usable;
    hide At;
  }

  lemma StepRemains(hash: Email -> string, s: System, s': System, token: Token, deadline: int)
    requires Step(hash, s, s')
    ensures Remains(s, s', token, deadline)
  {
    var action :| StepBy(hash, s, s', action);
    hide StepBy;
    hide Remains;
    if action.Issuing? {
      IssueRemains(hash, s, s', action, token, deadline);
    } else {
      OtherRemains(hash, s, s', action, token, deadline);
    }
  }

  lemma RemainsChain(s: System, mid: System, s': System, token: Token, deadline: int)
    ensures Remains(s, s, token, deadline)
    ensures Remains(s, mid, token, deadline) && Remains(mid, s', token, deadline) ==> Remains(s, s', token, deadline)
  {
    hide Accounted;
  }

  lemma {:induction false} RunRemains(
    hash: Email -> string, states: seq<System>, i: nat, j: nat, token: Token, deadline: int)
    requires Run(hash, states) && i <= j < |states|
    ensures Remains(states[i], states[j], token, deadline)
  {
    hide *;
    if i == j {
      RemainsChain(states[i], states[i], states[i], token, deadline);
    } else {
      RunRemains(hash, states, i, j - 1, token, deadline);
      RunStep(hash, states, j - 1);
      StepRemains(hash, states[j - 1], states[j], token, deadline);
      RemainsChain(states[i], states[j - 1], states[j], token, deadline);
    }
  }

  lemma IssueStores(
    hash: Email -> string, s: System, s': System, token: Token, user: User, email: Email, expiresAt: int, apiNow: int)
    requires StepBy(hash, s, s', Issuing(token, user, email, expiresAt, apiNow))
    requires token !in s.redis.proofs && expiresAt - apiNow >= 1_000_000
    ensures token in s'.issued && Accounted(s', token, s.now + (expiresAt - apiNow) / 1_000_000)
  {
  }

  /**
   A challenge issued with a lifetime of a millisecond or more is live at every instant up to its deadline,
   unless a verification consumed it or another issue replaced it.
   */
  lemma ChallengeStays(
    hash: Email -> string, states: seq<System>, i: nat, j: nat,
    token: Token, user: User, email: Email, expiresAt: int, apiNow: int)
    requires Run(hash, states) && i < j < |states|
    requires StepBy(hash, states[i], states[i + 1], Issuing(token, user, email, expiresAt, apiNow))
    requires token !in states[i].redis.proofs && expiresAt - apiNow >= 1_000_000
    requires states[j].now <= states[i].now + (expiresAt - apiNow) / 1_000_000
    ensures token in states[j].redis.proofs || token in states[j].consumed || token in states[j].displaced
  {
    var deadline := states[i].now + (expiresAt - apiNow) / 1_000_000;
    IssueStores(hash, states[i], states[i + 1], token, user, email, expiresAt, apiNow);
    RunRemains(hash, states, i + 1, j, token, deadline);
    hide Run;
    hide StepBy;
  }

  // ----- one verification alone -----

  /** In time, for an account there, unverified, and with the email the challenge was issued for. */
  predicate Verifiable(hash: Email -> string, accounts: map<User, Account>, c: Challenge, verifiedAt: int) {
    && c.user != "" && c.emailHash != "" && verifiedAt < c.expiresAt
    && c.user in accounts && !accounts[c.user].verified && hash(accounts[c.user].email) == c.emailHash
  }

  function Flowing(s: System, id: nat, flow: Flow): System { s.(flows := s.flows[id := flow]) }

  predicate Ready(s: System, id: nat, token: Token) {
    id !in s.flows && token in s.redis.proofs && s.redis.proofs[token].challenge.user in s.latest
  }

  /** After the GETDEL. */
  function ClaimedAt(s: System, id: nat, token: Token, verifiedAt: int): System
    requires Ready(s, id, token)
  {
    var c := s.redis.proofs[token].challenge;
    Flowing(s, id, Flow(token, verifiedAt, Claimed(c, s.latest[c.user]))).(
      redis := GetDel(s.redis, token), consumed := s.consumed[token := id])
  }

  /** After the cleanup, with the flow in `phase`. */
  function CleanedAt(s: System, id: nat, token: Token, verifiedAt: int, phase: Phase): System
    requires Ready(s, id, token)
  {
    var c := s.redis.proofs[token].challenge;
    Flowing(s, id, Flow(token, verifiedAt, phase)).(
      redis := ClearOwner(GetDel(s.redis, token), c.user, token), consumed := s.consumed[token := id])
  }

  lemma Claims(hash: Email -> string, s: System, id: nat, token: Token, verifiedAt: int)
    requires Ready(s, id, token)
    ensures Step(hash, s, Flowing(s, id, Flow(token, verifiedAt, Started)))
    ensures Step(hash, Flowing(s, id, Flow(token, verifiedAt, Started)), ClaimedAt(s, id, token, verifiedAt))
  {
    var begun := Flowing(s, id, Flow(token, verifiedAt, Started));
    assert StepBy(hash, s, begun, Beginning(id, token, verifiedAt));
    assert StepBy(hash, begun, ClaimedAt(s, id, token, verifiedAt), Claiming(id));
  }

  lemma Cleans(hash: Email -> string, s: System, id: nat, token: Token, verifiedAt: int)
    requires Ready(s, id, token)
    ensures
      var c := s.redis.proofs[token].challenge;
      Step(hash, ClaimedAt(s, id, token, verifiedAt),
           CleanedAt(s, id, token, verifiedAt, if Usable(c, verifiedAt) then Cleared(c, s.latest[c.user]) else Failed))
  {
    var c := s.redis.proofs[token].challenge;
    var phase := if Usable(c, verifiedAt) then Cleared(c, s.latest[c.user]) else Failed;
    hide Usable;
    hide ClearOwner;
    assert StepBy(hash, ClaimedAt(s, id, token, verifiedAt), CleanedAt(s, id, token, verifiedAt, phase), Clearing(id, true));
  }

  lemma Rephased(s: System, id: nat, token: Token, verifiedAt: int, phase: Phase, next: Phase)
    requires Ready(s, id, token)
    ensures
      var before, after := CleanedAt(s, id, token, verifiedAt, phase), CleanedAt(s, id, token, verifiedAt, next);
      && id in before.flows && before.flows[id].phase == phase && before.accounts == s.accounts
      && after == before.(flows := At(before, id, next))
  {
    hide ClearOwner;
    hide GetDel;
  }

  lemma Loads(hash: Email -> string, s: System, id: nat, token: Token, verifiedAt: int)
    requires Ready(s, id, token)
    ensures
      var c := s.redis.proofs[token].challenge;
      var loads := c.user in s.accounts && !s.accounts[c.user].verified && hash(s.accounts[c.user].email) == c.emailHash;
      Step(hash, CleanedAt(s, id, token, verifiedAt, Cleared(c, s.latest[c.user])),
           CleanedAt(s, id, token, verifiedAt,
                     if loads then Loaded(c, s.latest[c.user], s.accounts[c.user].email) else Failed))
  {
    var c := s.redis.proofs[token].challenge;
    var loads := c.user in s.accounts && !s.accounts[c.user].verified && hash(s.accounts[c.user].email) == c.emailHash;
    var phase := if loads then Loaded(c, s.latest[c.user], s.accounts[c.user].email) else Failed;
    Rephased(s, id, token, verifiedAt, Cleared(c, s.latest[c.user]), phase);
    hide CleanedAt;
    hide At;
    assert StepBy(hash, CleanedAt(s, id, token, verifiedAt, Cleared(c, s.latest[c.user])),
                  CleanedAt(s, id, token, verifiedAt, phase), Loading(id));
  }

  lemma Updates(hash: Email -> string, s: System, id: nat, token: Token, verifiedAt: int)
    requires Ready(s, id, token)
    requires var c := s.redis.proofs[token].challenge; c.user in s.accounts && !s.accounts[c.user].verified
    ensures
      var c := s.redis.proofs[token].challenge;
      var email := s.accounts[c.user].email;
      Step(hash, CleanedAt(s, id, token, verifiedAt, Loaded(c, s.latest[c.user], email)),
           CleanedAt(s, id, token, verifiedAt, Succeeded(c, s.latest[c.user], email)).(
             accounts := s.accounts[c.user := Account(email, true)]))
  {
    var c := s.redis.proofs[token].challenge;
    var email := s.accounts[c.user].email;
    hide ClearOwner;
    assert StepBy(hash, CleanedAt(s, id, token, verifiedAt, Loaded(c, s.latest[c.user], email)),
                  CleanedAt(s, id, token, verifiedAt, Succeeded(c, s.latest[c.user], email)).(
                    accounts := s.accounts[c.user := Account(email, true)]), Updating(id));
  }

  lemma CleanedColumns(s: System, id: nat, token: Token, verifiedAt: int, phase: Phase)
    requires Ready(s, id, token)
    ensures
      var cleaned := CleanedAt(s, id, token, verifiedAt, phase);
      && id in cleaned.flows && cleaned.flows[id].phase == phase && cleaned.accounts == s.accounts
      && cleaned.redis == ClearOwner(GetDel(s.redis, token), s.redis.proofs[token].challenge.user, token)
  {
    hide ClearOwner;
  }

  ghost predicate Steps(hash: Email -> string, states: seq<System>) {
    forall i :: 0 <= i < |states| - 1 ==> Step(hash, states[i], states[i + 1])
  }

  lemma StepsExtend(hash: Email -> string, states: seq<System>, s': System)
    requires states != [] && Steps(hash, states) && Step(hash, states[|states| - 1], s')
    ensures Steps(hash, states + [s'])
  {
    hide Step;
    var more := states + [s'];
    forall i | 0 <= i < |more| - 1 ensures Step(hash, more[i], more[i + 1]) {
      assert more[i] == states[i];
    }
  }

  lemma CleanedRun(hash: Email -> string, s: System, id: nat, token: Token, verifiedAt: int) returns (states: seq<System>)
    requires Ready(s, id, token)
    ensures |states| == 4 && states[0] == s && Steps(hash, states)
    ensures
      var c := s.redis.proofs[token].challenge;
      states[3] == CleanedAt(s, id, token, verifiedAt,
                             if Usable(c, verifiedAt) then Cleared(c, s.latest[c.user]) else Failed)
  {
    var c := s.redis.proofs[token].challenge;
    Claims(hash, s, id, token, verifiedAt);
    Cleans(hash, s, id, token, verifiedAt);
    hide Step;
    hide CleanedAt;
    hide ClaimedAt;
    hide Flowing;
    hide Usable;
    var phase := if Usable(c, verifiedAt) then Cleared(c, s.latest[c.user]) else Failed;
    var cleaned := CleanedAt(s, id, token, verifiedAt, phase);
    states := [s, Flowing(s, id, Flow(token, verifiedAt, Started)), ClaimedAt(s, id, token, verifiedAt), cleaned];
  }

  /** What `last`, the end of a verification of the challenge stored in `s`, must be. */
  ghost predicate Concludes(hash: Email -> string, s: System, id: nat, token: Token, verifiedAt: int, last: System)
    requires token in s.redis.proofs
  {
    var c := s.redis.proofs[token].challenge;
    && id in last.flows && (last.flows[id].phase.Succeeded? || last.flows[id].phase == Failed)
    && (last.flows[id].phase.Succeeded? <==> Verifiable(hash, s.accounts, c, verifiedAt))
    && last.accounts == (if Verifiable(hash, s.accounts, c, verifiedAt)
                         then s.accounts[c.user := Account(s.accounts[c.user].email, true)] else s.accounts)
    && last.redis == ClearOwner(GetDel(s.redis, token), c.user, token)
  }

  lemma ConcludedSo(hash: Email -> string, s: System, id: nat, token: Token, verifiedAt: int)
    requires Ready(s, id, token)
    ensures
      var c := s.redis.proofs[token].challenge;
      && (!Verifiable(hash, s.accounts, c, verifiedAt) ==>
            Concludes(hash, s, id, token, verifiedAt, CleanedAt(s, id, token, verifiedAt, Failed)))
      && (Verifiable(hash, s.accounts, c, verifiedAt) ==>
            var email := s.accounts[c.user].email;
            Concludes(hash, s, id, token, verifiedAt,
                      CleanedAt(s, id, token, verifiedAt, Succeeded(c, s.latest[c.user], email)).(
                        accounts := s.accounts[c.user := Account(email, true)])))
  {
    var c := s.redis.proofs[token].challenge;
    CleanedColumns(s, id, token, verifiedAt, Failed);
    if Verifiable(hash, s.accounts, c, verifiedAt) {
      CleanedColumns(s, id, token, verifiedAt, Succeeded(c, s.latest[c.user], s.accounts[c.user].email));
    }
    hide CleanedAt;
    hide ClearOwner;
  }

  /** Undisturbed, a verification takes its steps, and succeeds with the accounts that `Verify` without a fault leaves. */
  lemma UndisturbedVerification(hash: Email -> string, s: System, id: nat, token: Token, verifiedAt: int)
    returns (states: seq<System>)
    requires Ready(s, id, token)
    ensures states != [] && states[0] == s && Steps(hash, states)
    ensures Concludes(hash, s, id, token, verifiedAt, states[|states| - 1])
  {
    var c := s.redis.proofs[token].challenge;
    var latest := s.latest[c.user];
    states := CleanedRun(hash, s, id, token, verifiedAt);
    ConcludedSo(hash, s, id, token, verifiedAt);
    hide Concludes;
    hide CleanedAt;
    hide Step;
    hide Steps;
    if Usable(c, verifiedAt) {
      Loads(hash, s, id, token, verifiedAt);
      if Verifiable(hash, s.accounts, c, verifiedAt) {
        var email := s.accounts[c.user].email;
        Updates(hash, s, id, token, verifiedAt);
        StepsExtend(hash, states, CleanedAt(s, id, token, verifiedAt, Loaded(c, latest, email)));
        states := states + [CleanedAt(s, id, token, verifiedAt, Loaded(c, latest, email))];
        var last := CleanedAt(s, id, token, verifiedAt, Succeeded(c, latest, email)).(
          accounts := s.accounts[c.user := Account(email, true)]);
        StepsExtend(hash, states, last);
        states := states + [last];
      } else {
        StepsExtend(hash, states, CleanedAt(s, id, token, verifiedAt, Failed));
        states := states + [CleanedAt(s, id, token, verifiedAt, Failed)];
      }
    }
  }
}
