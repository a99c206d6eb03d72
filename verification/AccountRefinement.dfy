/** The in-memory store and the Postgres store give the same answers on every run of calls. */
module AccountRefinement {
  import opened Prelude
  import opened Accounts

  /** Both stores fed the same calls. */
  datatype State = State(
    memory: Memory,
    tables: Tables,
    now: Instant,
    // history: account ids and secrets ever drawn, enrollments presented after their end, the accounts
    // credentials were issued to, and whether every status so far was one both stores accept
    ids: set<string>,
    secrets: set<string>,
    late: set<string>,
    issued: multiset<string>,
    exact: bool)

  const INITIAL: State := State(
    Memory(map[], map[], map[]), Tables(map[], map[], map[]), 0, {}, {}, {}, multiset{}, true)

  /** Drawn values are new. */
  predicate Drawn(s: State, op: Op) {
    match op
    case Create(_, _, _, id, enrollment, _) => id !in s.ids && enrollment !in s.secrets
    case Authenticate(_, _, credential, _, _) => credential !in s.secrets
    case _ => true
  }

  /** The same, and the clock does not run back. */
  predicate Enabled(s: State, op: Op) {
    Drawn(s, op) && (op.Create? || op.Authenticate? ==> op.now >= s.now)
  }

  predicate StatusesAgree(op: Op) {
    match op
    case SetStatus(_, _, status) => StatusAllowed(status)
    case SetIdentity(_, _, status, _) => IdentityAllowed(status)
    case _ => true
  }

  function After(s: State, op: Op): State {
    var (m, r) := MemoryStep(s.memory, op);
    var (p, q) := TablesStep(s.tables, op);
    State(m, p,
          if op.Create? || op.Authenticate? then op.now else s.now,
          if op.Create? then s.ids + {op.account} else s.ids,
          if op.Create? then s.secrets + {op.enrollment}
          else if op.Authenticate? then s.secrets + {op.credential} else s.secrets,
          if r == ExpiredToken && op.Authenticate? then s.late + {op.token} else s.late,
          if r.Authenticated? && r.credential.Some? then s.issued + multiset{r.account} else s.issued,
          s.exact && StatusesAgree(op))
  }

  ghost predicate Leads(s: State, ops: seq<Op>, t: State)
    decreases |ops|
  {
    if ops == [] then s == t else Enabled(s, ops[0]) && Leads(After(s, ops[0]), ops[1..], t)
  }

  // ---- the simulation --------------------------------------------------------

  /** The same account, except perhaps for what only a rejected status would set. */
  predicate Alike(a: Account, b: Account, exact: bool) {
    if exact then a == b else a == b.(status := a.status, external := a.external)
  }

  ghost predicate SameAccounts(s: State) {
    && s.memory.accounts.Keys == s.tables.accounts.Keys
    && (forall id :: id in s.memory.accounts ==> Alike(s.memory.accounts[id].account, s.tables.accounts[id], s.exact))
    && (forall id :: id in s.memory.accounts ==> id in s.ids)
  }

  ghost predicate CredentialHolds(s: State, t: string) {
    && t in s.memory.credentials && t in s.tables.credentials
    && s.tables.credentials[t] == Credential(s.memory.credentials[t], false)
    && s.memory.credentials[t] in s.tables.accounts
    && t in s.secrets && t !in s.tables.pairings
  }

  ghost predicate SameCredentials(s: State) {
    && (forall t :: t in s.tables.credentials ==> CredentialHolds(s, t))
    && (forall t :: t in s.memory.credentials ==> t in s.tables.credentials)
  }

  /** An enrollment is in memory while it is unredeemed and has not been presented late. */
  ghost predicate EnrollmentHolds(s: State, t: string, p: Pairing) {
    && p.account in s.tables.accounts && t in s.secrets && !p.revoked
    && (t in s.memory.enrollments <==> !p.redeemed && t !in s.late)
    && (t in s.late ==> !p.redeemed)
    && (t in s.memory.enrollments ==>
          s.memory.enrollments[t] == p.account
          && p.account in s.memory.accounts && s.memory.accounts[p.account].enrollmentEnd == p.expiresAt)
  }

  ghost predicate SameEnrollments(s: State) {
    && (forall t :: t in s.tables.pairings ==> EnrollmentHolds(s, t, s.tables.pairings[t]))
    && (forall t :: t in s.memory.enrollments ==> t in s.tables.pairings)
    && (forall t :: t in s.late ==> t in s.secrets)
  }

  predicate PairingFor(p: Tables, t: string, account: string) { t in p.pairings && p.pairings[t].account == account }

  predicate CredentialFor(p: Tables, t: string, account: string) {
    t in p.credentials && p.credentials[t].account == account
  }

  /** Each account has one pairing token, and a credential only when that was redeemed. */
  ghost predicate OneToken(p: Tables) {
    && (forall t, u, a :: PairingFor(p, t, a) && PairingFor(p, u, a) ==> t == u)
    && (forall t, u, a :: CredentialFor(p, t, a) && CredentialFor(p, u, a) ==> t == u)
    && (forall t, u, a :: PairingFor(p, t, a) && CredentialFor(p, u, a) ==> p.pairings[t].redeemed)
  }

  ghost predicate GenerationsCount(s: State) {
    && (forall id :: id in s.tables.accounts ==> s.tables.accounts[id].generation == s.issued[id])
    && (forall id :: id in s.issued ==> id in s.ids)
  }

  ghost predicate Sim(s: State) {
    SameAccounts(s) && SameCredentials(s) && SameEnrollments(s) && OneToken(s.tables) && GenerationsCount(s)
  }

  /** Equal answers; views may differ in the status only after a status Postgres rejects. */
  predicate Same(r: Reply, q: Reply, exact: bool) {
    || r == q
    || (r.Authenticated? && q.Authenticated? && q == r.(view := q.view) && Alike(r.view, q.view, exact))
  }

  // ---- a new account -------------------------------------------------------------

  ghost predicate Adds(s: State, t: State, id: string, token: string, a: Account, end: Instant) {
    && id !in s.ids && token !in s.secrets && a.generation == 0
    && t.memory == Memory(s.memory.accounts[id := Entry(a, end)], s.memory.enrollments[token := id], s.memory.credentials)
    && t.tables == Tables(s.tables.accounts[id := a], s.tables.pairings[token := Pairing(id, end, false, false)],
                          s.tables.credentials)
    && t.ids == s.ids + {id} && t.secrets == s.secrets + {token}
    && t.late == s.late && t.issued == s.issued && t.exact == s.exact
  }

  lemma AddsTokens(s: State, t: State, id: string, token: string, a: Account, end: Instant)
    requires SameAccounts(s) && SameCredentials(s) && SameEnrollments(s) && OneToken(s.tables)
    requires Adds(s, t, id, token, a, end)
    ensures OneToken(t.tables)
  {
    assert id !in s.tables.accounts;
    forall u
      ensures !PairingFor(s.tables, u, id) && !CredentialFor(s.tables, u, id)
    {
      assert u in s.tables.pairings ==> EnrollmentHolds(s, u, s.tables.pairings[u]);
      assert u in s.tables.credentials ==> CredentialHolds(s, u);
    }
    forall u, b
      ensures PairingFor(t.tables, u, b) <==> PairingFor(s.tables, u, b) || (u == token && b == id)
      ensures CredentialFor(t.tables, u, b) <==> CredentialFor(s.tables, u, b)
    {
      assert u == token ==> u !in s.tables.pairings by {
        assert u in s.tables.pairings ==> EnrollmentHolds(s, u, s.tables.pairings[u]);
      }
    }
  }

  lemma AddsEnrollment(s: State, t: State, id: string, token: string, a: Account, end: Instant)
    requires SameAccounts(s) && SameEnrollments(s) && Adds(s, t, id, token, a, end)
    ensures SameEnrollments(t)
  {
    forall u | u in t.tables.pairings
      ensures EnrollmentHolds(t, u, t.tables.pairings[u])
    {
      if u != token {
        assert EnrollmentHolds(s, u, s.tables.pairings[u]);
        assert s.tables.pairings[u].account != id;
      }
    }
  }

  lemma AddsRest(s: State, t: State, id: string, token: string, a: Account, end: Instant)
    requires SameAccounts(s) && SameCredentials(s) && GenerationsCount(s) && Adds(s, t, id, token, a, end)
    ensures SameAccounts(t) && SameCredentials(t) && GenerationsCount(t)
  {
    assert s.issued[id] == 0;
    forall u | u in t.tables.credentials
      ensures CredentialHolds(t, u)
    {
      assert CredentialHolds(s, u);
    }
  }

  lemma CreateAgrees(s: State, op: Op)
    requires Sim(s) && Drawn(s, op) && op.Create?
    ensures Sim(After(s, op))
    ensures MemoryStep(s.memory, op).1 == TablesStep(s.tables, op).1
  {
    var t := After(s, op);
    if KnownPlatform(op.platform) {
      assert op.enrollment in s.tables.pairings ==> EnrollmentHolds(s, op.enrollment, s.tables.pairings[op.enrollment]);
      var a, end := NewAccount(op.user, op.platform, op.name), op.now + ENROLLMENT_TIME;
      assert Adds(s, t, op.account, op.enrollment, a, end);
      AddsTokens(s, t, op.account, op.enrollment, a, end);
      AddsEnrollment(s, t, op.account, op.enrollment, a, end);
      AddsRest(s, t, op.account, op.enrollment, a, end);
    } else {
      MereHistory(s, t);
    }
  }

  /** Other times and more drawn values change nothing else. */
  lemma MereHistory(s: State, t: State)
    requires Sim(s)
    requires t == s.(now := t.now, ids := t.ids, secrets := t.secrets)
    requires s.ids <= t.ids && s.secrets <= t.secrets
    ensures Sim(t)
  {
    forall u | u in t.tables.pairings
      ensures EnrollmentHolds(t, u, t.tables.pairings[u])
    {
      assert EnrollmentHolds(s, u, s.tables.pairings[u]);
    }
    forall u | u in t.tables.credentials
      ensures CredentialHolds(t, u)
    {
      assert CredentialHolds(s, u);
    }
  }

  // ---- a deleted account -----------------------------------------------------------

  ghost predicate Drops(s: State, t: State, id: string) {
    && t.memory == Memory(s.memory.accounts - {id}, WithoutAccount(s.memory.enrollments, id),
                          WithoutAccount(s.memory.credentials, id))
    && t.tables.accounts == s.tables.accounts - {id}
    && (forall u, b :: PairingFor(t.tables, u, b) <==> PairingFor(s.tables, u, b) && b != id)
    && (forall u :: u in t.tables.pairings ==> u in s.tables.pairings && t.tables.pairings[u] == s.tables.pairings[u])
    && (forall u, b :: CredentialFor(t.tables, u, b) <==> CredentialFor(s.tables, u, b) && b != id)
    && (forall u :: u in t.tables.credentials ==> u in s.tables.credentials && t.tables.credentials[u] == s.tables.credentials[u])
    && t == s.(memory := t.memory, tables := t.tables)
  }

  lemma DropsKeeps(s: State, t: State, id: string)
    requires Sim(s) && Drops(s, t, id)
    ensures Sim(t)
  {
    forall u | u in t.tables.pairings
      ensures EnrollmentHolds(t, u, t.tables.pairings[u])
    {
      assert EnrollmentHolds(s, u, s.tables.pairings[u]);
      assert PairingFor(t.tables, u, t.tables.pairings[u].account);
    }
    forall u | u in t.tables.credentials
      ensures CredentialHolds(t, u)
    {
      assert CredentialHolds(s, u);
      assert CredentialFor(t.tables, u, t.tables.credentials[u].account);
    }
    forall u | u in t.memory.enrollments
      ensures u in t.tables.pairings
    {
      assert EnrollmentHolds(s, u, s.tables.pairings[u]);
      assert PairingFor(s.tables, u, s.memory.enrollments[u]);
      assert PairingFor(t.tables, u, s.memory.enrollments[u]);
    }
    forall u | u in t.memory.credentials
      ensures u in t.tables.credentials
    {
      assert CredentialHolds(s, u);
      assert CredentialFor(s.tables, u, s.memory.credentials[u]);
      assert CredentialFor(t.tables, u, s.memory.credentials[u]);
    }
  }

  lemma DeleteAgrees(s: State, op: Op)
    requires Sim(s) && op.Delete?
    ensures Sim(After(s, op))
    ensures MemoryStep(s.memory, op).1 == TablesStep(s.tables, op).1
  {
    var t := After(s, op);
    assert op.account in s.memory.accounts ==>
        Alike(s.memory.accounts[op.account].account, s.tables.accounts[op.account], s.exact);
    if op.account in s.memory.accounts && s.memory.accounts[op.account].account.user == op.user {
      DeleteDrops(s, op);
      DropsKeeps(s, t, op.account);
    } else {
      assert t == s;
    }
  }

  lemma DeleteDrops(s: State, op: Op)
    requires op.Delete? && op.account in s.memory.accounts && op.account in s.tables.accounts
    requires s.memory.accounts[op.account].account.user == op.user == s.tables.accounts[op.account].user
    ensures Drops(s, After(s, op), op.account)
  {
  }

  // ---- guarded updates ---------------------------------------------------------------

  /** One account's status and identity change on either side, alike if both accept. */
  ghost predicate Updates(s: State, t: State) {
    && t.memory == s.memory.(accounts := t.memory.accounts) && t.tables == s.tables.(accounts := t.tables.accounts)
    && t == s.(memory := t.memory, tables := t.tables, exact := t.exact)
    && t.memory.accounts.Keys == s.memory.accounts.Keys && t.tables.accounts.Keys == s.tables.accounts.Keys
    && (t.exact ==> s.exact)
    && (forall id :: id in s.memory.accounts && id in s.tables.accounts ==>
          && t.memory.accounts[id].enrollmentEnd == s.memory.accounts[id].enrollmentEnd
          && Alike(t.memory.accounts[id].account, t.tables.accounts[id], t.exact)
          && t.tables.accounts[id].generation == s.tables.accounts[id].generation)
  }

  lemma UpdatesKeeps(s: State, t: State)
    requires Sim(s) && Updates(s, t)
    ensures Sim(t)
  {
    forall u | u in t.tables.pairings
      ensures EnrollmentHolds(t, u, t.tables.pairings[u])
    {
      assert EnrollmentHolds(s, u, s.tables.pairings[u]);
    }
    forall u | u in t.tables.credentials
      ensures CredentialHolds(t, u)
    {
      assert CredentialHolds(s, u);
    }
    assert forall u, b :: PairingFor(t.tables, u, b) <==> PairingFor(s.tables, u, b);
    assert forall u, b :: CredentialFor(t.tables, u, b) <==> CredentialFor(s.tables, u, b);
  }

  lemma StatusAgrees(s: State, op: Op)
    requires Sim(s) && (op.SetStatus? || op.SetIdentity?)
    ensures Sim(After(s, op))
    ensures MemoryStep(s.memory, op).1 == Done
    ensures TablesStep(s.tables, op).1 == if StatusesAgree(op) then Done else BadStatus
  {
    var t := After(s, op);
    if op.SetStatus? {
      StatusUpdates(s, t, op);
    } else {
      IdentityUpdates(s, t, op);
    }
    UpdatesKeeps(s, t);
  }

  /** A guarded change reaches one account of the right generation. */
  ghost predicate Guarded(s: State, m: Memory, p: Tables, id: string, a: Account, b: Account) {
    && id in s.memory.accounts && id in s.tables.accounts
    && m == s.memory.(accounts := s.memory.accounts[id := s.memory.accounts[id].(account := a)])
    && p == s.tables.(accounts := s.tables.accounts[id := b])
    && b.generation == s.tables.accounts[id].generation
  }

  lemma GuardedUpdates(s: State, t: State, id: string, a: Account, b: Account)
    requires SameAccounts(s) && Guarded(s, t.memory, t.tables, id, a, b) && Alike(a, b, t.exact)
    requires t == s.(memory := t.memory, tables := t.tables, exact := t.exact) && (t.exact ==> s.exact)
    ensures Updates(s, t)
  {
    assert forall i :: i in s.memory.accounts ==> Alike(s.memory.accounts[i].account, s.tables.accounts[i], s.exact);
  }

  lemma IdleUpdates(s: State, t: State)
    requires SameAccounts(s) && t == s.(exact := t.exact) && (t.exact ==> s.exact)
    ensures Updates(s, t)
  {
    assert forall i :: i in s.memory.accounts ==> Alike(s.memory.accounts[i].account, s.tables.accounts[i], s.exact);
  }

  lemma StatusUpdates(s: State, t: State, op: Op)
    requires SameAccounts(s) && op.SetStatus? && t == After(s, op)
    ensures Updates(s, t)
  {
    var id := op.account;
    if id in s.memory.accounts && s.memory.accounts[id].account.generation == op.generation {
      var a, b := s.memory.accounts[id].account, s.tables.accounts[id];
      assert Alike(a, b, s.exact);
      GuardedUpdates(s, t, id, a.(status := op.status), if StatusAllowed(op.status) then b.(status := op.status) else b);
    } else {
      assert id in s.memory.accounts ==> Alike(s.memory.accounts[id].account, s.tables.accounts[id], s.exact);
      IdleUpdates(s, t);
    }
  }

  lemma IdentityUpdates(s: State, t: State, op: Op)
    requires SameAccounts(s) && op.SetIdentity? && t == After(s, op)
    ensures Updates(s, t)
  {
    var id := op.account;
    if id in s.memory.accounts && s.memory.accounts[id].account.generation == op.generation {
      var a, b := s.memory.accounts[id].account, s.tables.accounts[id];
      assert Alike(a, b, s.exact);
      GuardedUpdates(s, t, id, a.(status := op.status, external := op.external),
                     if IdentityAllowed(op.status) then b.(status := op.status, external := op.external) else b);
    } else {
      assert id in s.memory.accounts ==> Alike(s.memory.accounts[id].account, s.tables.accounts[id], s.exact);
      IdleUpdates(s, t);
    }
  }

  // ---- authentication -------------------------------------------------------------------

  /** Presenting an enrollment after its end. */
  ghost predicate Forgets(s: State, t: State, token: string) {
    && token in s.memory.enrollments && token in s.tables.pairings && s.secrets <= t.secrets
    && t == s.(memory := s.memory.(enrollments := s.memory.enrollments - {token}), now := t.now,
               late := s.late + {token}, secrets := t.secrets)
  }

  lemma LateEnrollments(s: State, t: State, token: string)
    requires SameEnrollments(s) && Forgets(s, t, token)
    ensures SameEnrollments(t)
  {
    forall u | u in t.tables.pairings
      ensures EnrollmentHolds(t, u, t.tables.pairings[u])
    {
      assert EnrollmentHolds(s, u, s.tables.pairings[u]);
    }
    assert EnrollmentHolds(s, token, s.tables.pairings[token]);
  }

  lemma LateKeeps(s: State, t: State, token: string)
    requires Sim(s) && Forgets(s, t, token)
    ensures Sim(t)
  {
    LateEnrollments(s, t, token);
    forall u | u in t.tables.credentials
      ensures CredentialHolds(t, u)
    {
      assert CredentialHolds(s, u);
    }
  }

  ghost predicate Redeems(s: State, t: State, token: string, id: string, credential: string, worker: string) {
    && token in s.memory.enrollments && token in s.tables.pairings && s.tables.pairings[token].account == id
    && id in s.memory.accounts && id in s.tables.accounts && credential !in s.secrets
    && t.memory == Memory(
         s.memory.accounts[id := Entry(Activated(s.memory.accounts[id].account, worker), ZERO_TIME)],
         s.memory.enrollments - {token}, s.memory.credentials[credential := id])
    && t.tables == Tables(
         s.tables.accounts[id := Activated(s.tables.accounts[id], worker)],
         s.tables.pairings[token := s.tables.pairings[token].(redeemed := true)],
         s.tables.credentials[credential := Credential(id, false)])
    && t.ids == s.ids && t.secrets == s.secrets + {credential}
    && t.late == s.late && t.issued == s.issued + multiset{id} && t.exact == s.exact
  }

  lemma RedeemedEnrollments(s: State, t: State, token: string, id: string, credential: string, worker: string)
    requires Sim(s) && Redeems(s, t, token, id, credential, worker)
    ensures SameEnrollments(t)
  {
    forall u | u in t.tables.pairings
      ensures EnrollmentHolds(t, u, t.tables.pairings[u])
    {
      assert EnrollmentHolds(s, u, s.tables.pairings[u]);
      assert u != token ==> s.tables.pairings[u].account != id by {
        assert PairingFor(s.tables, token, id);
        assert s.tables.pairings[u].account == id ==> PairingFor(s.tables, u, id);
      }
    }
  }

  lemma RedeemedTokens(s: State, t: State, token: string, id: string, credential: string, worker: string)
    requires Sim(s) && Redeems(s, t, token, id, credential, worker)
    ensures OneToken(t.tables) && SameCredentials(t)
  {
    NoCredential(s, token);
    forall u | u in t.tables.credentials
      ensures CredentialHolds(t, u)
    {
      if u == credential {
        assert u in s.tables.pairings ==> EnrollmentHolds(s, u, s.tables.pairings[u]);
      } else {
        assert CredentialHolds(s, u);
      }
    }
    assert forall u, b :: PairingFor(t.tables, u, b) <==> PairingFor(s.tables, u, b);
    assert credential in s.tables.credentials ==> CredentialHolds(s, credential);
    assert forall u, b :: CredentialFor(t.tables, u, b) <==> CredentialFor(s.tables, u, b) || (u == credential && b == id);
    assert forall u :: PairingFor(s.tables, u, id) ==> u == token by {
      assert PairingFor(s.tables, token, id);
    }
  }

  /** An account with a live enrollment has no credential, so the one-active-credential index is clear. */
  lemma NoCredential(s: State, token: string)
    requires SameEnrollments(s) && OneToken(s.tables)
    requires token in s.tables.pairings && !s.tables.pairings[token].redeemed
    ensures forall u :: !CredentialFor(s.tables, u, s.tables.pairings[token].account)
    ensures !HasActive(s.tables, s.tables.pairings[token].account)
  {
    var id := s.tables.pairings[token].account;
    assert PairingFor(s.tables, token, id);
    forall u
      ensures !CredentialFor(s.tables, u, id)
    {
    }
    assert forall u :: ActiveCredential(s.tables, u, id) ==> CredentialFor(s.tables, u, id);
  }

  lemma RedeemedRest(s: State, t: State, token: string, id: string, credential: string, worker: string)
    requires SameAccounts(s) && GenerationsCount(s) && Redeems(s, t, token, id, credential, worker)
    ensures SameAccounts(t) && GenerationsCount(t)
  {
  }

  lemma KnownCredential(s: State, op: Op)
    requires Sim(s) && Drawn(s, op) && op.Authenticate? && op.token in s.memory.credentials
    ensures Sim(After(s, op)) && op.token !in s.tables.pairings
    ensures Same(MemoryStep(s.memory, op).1, TablesStep(s.tables, op).1, s.exact)
  {
    assert CredentialHolds(s, op.token);
    MereHistory(s, After(s, op));
  }

  /** The token is an enrollment that the in-memory store has seen late and forgotten. */
  predicate IsForgotten(s: State, op: Op) {
    op.Authenticate? && op.token in s.late && op.token in s.tables.pairings
  }

  /** A forgotten enrollment is presented at a time before its end after all, for the right platform. */
  predicate Regrants(s: State, op: Op) {
    && IsForgotten(s, op) && op.now <= s.tables.pairings[op.token].expiresAt
    && s.tables.pairings[op.token].account in s.tables.accounts
    && s.tables.accounts[s.tables.pairings[op.token].account].platform == op.platform
  }

  lemma NoEnrollment(s: State, op: Op)
    requires Sim(s) && Drawn(s, op) && op.Authenticate? && !IsForgotten(s, op)
    requires op.token !in s.memory.credentials && op.token !in s.memory.enrollments
    ensures Sim(After(s, op))
    ensures MemoryStep(s.memory, op).1 == InvalidToken == TablesStep(s.tables, op).1
  {
    assert op.token in s.tables.credentials ==> CredentialHolds(s, op.token);
    assert op.token in s.tables.pairings ==> EnrollmentHolds(s, op.token, s.tables.pairings[op.token]);
    MereHistory(s, After(s, op));
  }

  /** Memory refuses a forgotten enrollment as unknown; Postgres looks at it once more. */
  lemma Forgotten(s: State, op: Op)
    requires Sim(s) && Drawn(s, op) && IsForgotten(s, op)
    ensures MemoryStep(s.memory, op).1 == InvalidToken
    ensures var q := TablesStep(s.tables, op).1;
            if op.now > s.tables.pairings[op.token].expiresAt then q == ExpiredToken
            else if Regrants(s, op) then q.Authenticated? && q.credential == Some(op.credential)
            else q == PlatformMismatch
    ensures !Regrants(s, op) ==> Sim(After(s, op))
  {
    var pairing := s.tables.pairings[op.token];
    assert EnrollmentHolds(s, op.token, pairing);
    assert op.token in s.tables.credentials ==> CredentialHolds(s, op.token);
    assert op.credential in s.tables.credentials ==> CredentialHolds(s, op.credential);
    NoCredential(s, op.token);
    if !Regrants(s, op) {
      MereHistory(s, After(s, op));
    }
  }

  /** The two stores look at the same enrollment. */
  ghost predicate Holds(s: State, op: Op, id: string) {
    && op.Authenticate? && op.token !in s.memory.credentials && op.token !in s.tables.credentials
    && op.token in s.memory.enrollments && s.memory.enrollments[op.token] == id
    && op.token in s.tables.pairings && s.tables.pairings[op.token].account == id
    && !s.tables.pairings[op.token].redeemed && !s.tables.pairings[op.token].revoked
    && id in s.memory.accounts && id in s.tables.accounts
    && s.memory.accounts[id].enrollmentEnd == s.tables.pairings[op.token].expiresAt
    && Alike(s.memory.accounts[id].account, s.tables.accounts[id], s.exact)
  }

  lemma Presented(s: State, op: Op) returns (id: string)
    requires Sim(s) && op.Authenticate? && op.token !in s.memory.credentials && op.token in s.memory.enrollments
    ensures Holds(s, op, id) && op.token !in s.late
  {
    id := s.memory.enrollments[op.token];
    assert EnrollmentHolds(s, op.token, s.tables.pairings[op.token]);
    assert op.token in s.tables.credentials ==> CredentialHolds(s, op.token);
  }

  lemma PresentedLate(s: State, op: Op, id: string)
    requires Sim(s) && Drawn(s, op) && Holds(s, op, id) && op.now > s.tables.pairings[op.token].expiresAt
    ensures Sim(After(s, op))
    ensures MemoryStep(s.memory, op).1 == ExpiredToken == TablesStep(s.tables, op).1
  {
    LateKeeps(s, After(s, op), op.token);
  }

  lemma PresentedInTime(s: State, op: Op, id: string)
    requires Drawn(s, op) && Holds(s, op, id) && op.now <= s.tables.pairings[op.token].expiresAt
    requires s.tables.accounts[id].platform == op.platform
    requires op.credential !in s.tables.credentials && !HasActive(s.tables, id)
    ensures Redeems(s, After(s, op), op.token, id, op.credential, op.worker)
    ensures Same(MemoryStep(s.memory, op).1, TablesStep(s.tables, op).1, s.exact)
  {
  }

  lemma LiveEnrollment(s: State, op: Op)
    requires Sim(s) && Drawn(s, op) && op.Authenticate?
    requires op.token !in s.memory.credentials && op.token in s.memory.enrollments
    ensures Sim(After(s, op)) && op.token !in s.late
    ensures Same(MemoryStep(s.memory, op).1, TablesStep(s.tables, op).1, s.exact)
  {
    var id := Presented(s, op);
    if op.now > s.tables.pairings[op.token].expiresAt {
      PresentedLate(s, op, id);
    } else if s.tables.accounts[id].platform != op.platform {
      MereHistory(s, After(s, op));
    } else {
      NoCredential(s, op.token);
      assert op.credential in s.tables.credentials ==> CredentialHolds(s, op.credential);
      PresentedInTime(s, op, id);
      RedeemsKeeps(s, After(s, op), op.token, id, op.credential, op.worker);
    }
  }

  lemma RedeemsKeeps(s: State, t: State, token: string, id: string, credential: string, worker: string)
    requires Sim(s) && Redeems(s, t, token, id, credential, worker)
    ensures Sim(t)
  {
    assert EnrollmentHolds(s, token, s.tables.pairings[token]);
    RedeemedEnrollments(s, t, token, id, credential, worker);
    RedeemedTokens(s, t, token, id, credential, worker);
    RedeemedRest(s, t, token, id, credential, worker);
  }

  // ---- the theorems ------------------------------------------------------------------------

  /** How the answers `r` of memory and `q` of Postgres compare. */
  ghost predicate Compare(s: State, op: Op, r: Reply, q: Reply) {
    if IsForgotten(s, op) then
      && r == InvalidToken
      && (if op.now > s.tables.pairings[op.token].expiresAt then q == ExpiredToken
          else if Regrants(s, op) then q.Authenticated? && q.credential == Some(op.credential)
          else q == PlatformMismatch)
    else if !StatusesAgree(op) then r == Done && q == BadStatus
    else Same(r, q, s.exact)
  }

  lemma AnswersCompare(s: State, op: Op)
    requires Sim(s) && Drawn(s, op)
    ensures Compare(s, op, MemoryStep(s.memory, op).1, TablesStep(s.tables, op).1)
    ensures !Regrants(s, op) ==> Sim(After(s, op))
  {
    match op {
      case Create(_, _, _, _, _, _) => CreateAgrees(s, op);
      case Delete(_, _) => DeleteAgrees(s, op);
      case SetStatus(_, _, _) => StatusAgrees(s, op);
      case SetIdentity(_, _, _, _) => StatusAgrees(s, op);
      case Authenticate(token, _, _, _, _) =>
        if IsForgotten(s, op) {
          Forgotten(s, op);
        } else if token in s.memory.credentials {
          KnownCredential(s, op);
        } else if token in s.memory.enrollments {
          LiveEnrollment(s, op);
        } else {
          NoEnrollment(s, op);
        }
    }
  }

  /** Runs without any assumption on the clock, up to the first regrant. */
  ghost predicate LeadsUngranted(s: State, ops: seq<Op>, t: State)
    decreases |ops|
  {
    if ops == [] then s == t
    else Drawn(s, ops[0]) && !Regrants(s, ops[0]) && LeadsUngranted(After(s, ops[0]), ops[1..], t)
  }

  lemma {:induction false} UngrantedKeeps(s: State, ops: seq<Op>, t: State)
    requires Sim(s) && LeadsUngranted(s, ops, t)
    ensures Sim(t)
    decreases |ops|
  {
    if ops != [] {
      AnswersCompare(s, ops[0]);
      UngrantedKeeps(After(s, ops[0]), ops[1..], t);
    }
  }

  /** Whatever the clock does: up to and including the first regrant both stores answer every call alike,
      but for enrollments memory has forgotten and for a status only Postgres rejects, with the answers
      given exactly; and one store accepts a worker the other refuses if and only if the call is a regrant. */
  lemma AgreeUntilRegrant(ops: seq<Op>, s: State, op: Op)
    requires LeadsUngranted(INITIAL, ops, s) && Drawn(s, op)
    ensures var r, q := MemoryStep(s.memory, op).1, TablesStep(s.tables, op).1;
            && (if IsForgotten(s, op) then
                  && r == InvalidToken
                  && (if op.now > s.tables.pairings[op.token].expiresAt then q == ExpiredToken
                      else if Regrants(s, op) then q.Authenticated? && q.credential == Some(op.credential)
                      else q == PlatformMismatch)
                else if !StatusesAgree(op) then r == Done && q == BadStatus
                else Same(r, q, s.exact))
            && (r.Authenticated? != q.Authenticated? <==> Regrants(s, op))
  {
    UngrantedKeeps(INITIAL, ops, s);
    AnswersCompare(s, op);
  }

  /** With a clock that does not run back, what memory has forgotten has ended for good. */
  ghost predicate Timely(s: State) {
    forall t :: t in s.late && t in s.tables.pairings ==> s.tables.pairings[t].expiresAt < s.now
  }

  /** Only a late presentation makes an enrollment forgotten. */
  lemma NewlyLate(s: State, op: Op, t: string)
    requires SameEnrollments(s) && t in After(s, op).late && t !in s.late
    ensures op.Authenticate? && t == op.token && t in s.tables.pairings && op.now > s.tables.pairings[t].expiresAt
  {
    assert op.Authenticate? && t == op.token;
    assert MemoryAuthenticate(s.memory, t, op.platform, op.credential, op.worker, op.now).1 == ExpiredToken;
    assert EnrollmentHolds(s, t, s.tables.pairings[t]);
  }

  /** The end of a pairing never changes. */
  lemma PairingStays(s: State, op: Op, t: string)
    requires t in After(s, op).tables.pairings
    ensures (op.Create? && t == op.enrollment)
         || (t in s.tables.pairings && After(s, op).tables.pairings[t].expiresAt == s.tables.pairings[t].expiresAt)
  {
  }

  lemma TimelyStep(s: State, op: Op)
    requires Sim(s) && Timely(s) && Enabled(s, op)
    ensures !Regrants(s, op) && Timely(After(s, op))
  {
    var next := After(s, op);
    forall t | t in next.late && t in next.tables.pairings
      ensures next.tables.pairings[t].expiresAt < next.now
    {
      PairingStays(s, op, t);
      if t !in s.late {
        NewlyLate(s, op, t);
      }
    }
  }

  lemma {:induction false} RunKeeps(s: State, ops: seq<Op>, t: State)
    requires Sim(s) && Timely(s) && Leads(s, ops, t)
    ensures Sim(t) && Timely(t) && LeadsUngranted(s, ops, t)
    decreases |ops|
  {
    if ops != [] {
      TimelyStep(s, ops[0]);
      AnswersCompare(s, ops[0]);
      RunKeeps(After(s, ops[0]), ops[1..], t);
    }
  }

  /** With a clock that does not run back, after any run the next call gets the same answer from both
      stores, with two exceptions and both exact: an enrollment already presented after its end is
      invalid in memory and expired in Postgres, and only Postgres rejects an unknown status. Until such a
      status was used, the accounts returned are equal in every field. */
  lemma StoresAgree(ops: seq<Op>, s: State, op: Op)
    requires Leads(INITIAL, ops, s) && Enabled(s, op)
    ensures var r, q := MemoryStep(s.memory, op).1, TablesStep(s.tables, op).1;
            if op.Authenticate? && op.token in s.late && op.token in s.tables.pairings
            then r == InvalidToken && q == ExpiredToken
            else if !StatusesAgree(op) then r == Done && q == BadStatus
            else Same(r, q, s.exact)
  {
    RunKeeps(INITIAL, ops, s);
    TimelyStep(s, op);
    AnswersCompare(s, op);
  }

  /** Tokens that could authenticate a worker of the account. */
  ghost function Holders(m: Memory, id: string): set<string> {
    (set t | t in m.enrollments && m.enrollments[t] == id) + (set t | t in m.credentials && m.credentials[t] == id)
  }

  ghost function LiveHolders(p: Tables, id: string): set<string> {
    (set t | t in p.pairings && p.pairings[t].account == id && !p.pairings[t].redeemed)
    + (set t | t in p.credentials && p.credentials[t].account == id)
  }

  lemma AtMostOne(x: set<string>)
    requires forall t, u :: t in x && u in x ==> t == u
    ensures |x| <= 1
  {
    if x != {} {
      var t :| t in x;
      assert x == {t};
    }
  }

  lemma OneLiveHolder(p: Tables, id: string)
    requires OneToken(p)
    ensures forall t, u :: t in LiveHolders(p, id) && u in LiveHolders(p, id) ==> t == u
  {
    forall t, u | t in LiveHolders(p, id) && u in LiveHolders(p, id)
      ensures t == u
    {
      assert (PairingFor(p, t, id) && !p.pairings[t].redeemed) || CredentialFor(p, t, id);
      assert (PairingFor(p, u, id) && !p.pairings[u].redeemed) || CredentialFor(p, u, id);
    }
  }

  lemma HoldersLive(s: State, id: string)
    requires SameEnrollments(s) && SameCredentials(s)
    ensures Holders(s.memory, id) <= LiveHolders(s.tables, id)
  {
    forall t | t in Holders(s.memory, id)
      ensures t in LiveHolders(s.tables, id)
    {
      assert t in s.memory.enrollments ==> EnrollmentHolds(s, t, s.tables.pairings[t]);
      assert t in s.memory.credentials ==> CredentialHolds(s, t);
    }
  }

  /** In every reachable state an account has at most one live enrollment or credential in either
      store, and its generation is the number of credentials issued for it. */
  lemma OneCredentialPerAccount(ops: seq<Op>, s: State, id: string)
    requires Leads(INITIAL, ops, s)
    ensures |Holders(s.memory, id)| <= 1 && |LiveHolders(s.tables, id)| <= 1
    ensures id in s.tables.accounts ==> s.tables.accounts[id].generation == s.issued[id]
    ensures id in s.memory.accounts ==> s.memory.accounts[id].account.generation == s.issued[id]
  {
    RunKeeps(INITIAL, ops, s);
    HoldersLive(s, id);
    OneLiveHolder(s.tables, id);
    AtMostOne(LiveHolders(s.tables, id));
    AtMostOne(Holders(s.memory, id));
    assert id in s.memory.accounts ==> Alike(s.memory.accounts[id].account, s.tables.accounts[id], s.exact);
  }

  /** Regrants happen: an enrollment given at `start`, presented once after its ten minutes and then again
      at any earlier time, is refused in memory and accepted by Postgres exactly if that time is within them. */
  lemma ClockMustNotRunBack(user: string, account: string, token: string, first: string, second: string,
                             worker: string, start: Instant, late: Instant, again: Instant)
    requires token != first && second !in {token, first} && late > start + ENROLLMENT_TIME
    ensures var created := Create(user, "signal", "", account, token, start);
            var presented := Authenticate(token, "signal", first, worker, late);
            var op := Authenticate(token, "signal", second, worker, again);
            var t := After(After(INITIAL, created), presented);
            && LeadsUngranted(INITIAL, [created, presented], t) && Drawn(t, op)
            && MemoryStep(t.memory, op).1 == InvalidToken
            && (TablesStep(t.tables, op).1.Authenticated? <==> again <= start + ENROLLMENT_TIME)
  {
    var created := Create(user, "signal", "", account, token, start);
    var presented := Authenticate(token, "signal", first, worker, late);
    var s := After(INITIAL, created);
    assert s.memory.enrollments == map[token := account];
    var t := After(s, presented);
    assert [created, presented][1..] == [presented] && [presented][1..] == [];
    assert LeadsUngranted(s, [presented], t);
    AgreeUntilRegrant([created, presented], t, Authenticate(token, "signal", second, worker, again));
  }
}
